/** `run_pipeline` of scripts/posible_alphafold_total.py: every pending row
    of the ledger whose sequence splits on `/` into a binder and a target
    of at least five residues becomes one AlphaFold job and one FASTA file;
    all jobs go into a single upload file and only the packaged rows move
    to `ready_for_google`. */
module AlphaFoldPackager {
  import opened Wrappers
  import opened Text
  import opened Ledger
  import opened LedgerRepair
  import opened Seqs

  const MinChainLength := 5

  /** Lines 79-87: the stripped segments before the first and the second
      `/`, or nothing when the text has no `/` or either segment is shorter
      than five characters. */
  function SplitPair(fullSeq: string): (r: Option<(string, string)>)
    ensures '/' !in fullSeq ==> r.None?
    ensures r.Some? ==> |r.value.0| >= MinChainLength && |r.value.1| >= MinChainLength
    ensures r.Some? ==> Stripped(r.value.0) && Stripped(r.value.1)
  {
    if '/' !in fullSeq then None
    else
      var parts := Split(fullSeq, '/');
      var binder := Strip(parts[0]);
      var target := Strip(parts[1]);
      if |binder| < MinChainLength || |target| < MinChainLength then None
      else Some((binder, target))
  }

  /** A binder and a target written as `binder/target` split back into
      themselves. */
  lemma SplitPairRoundTrip(binder: string, target: string)
    requires '/' !in binder && '/' !in target && Stripped(binder) && Stripped(target)
    requires |binder| >= MinChainLength && |target| >= MinChainLength
    ensures SplitPair(binder + "/" + target) == Some((binder, target))
  {
    var s := binder + "/" + target;
    assert Join([binder, target], '/') == s;
    SplitJoin([binder, target], '/');
    assert s[|binder|] == '/';
    StripStripped(binder);
    StripStripped(target);
  }

  /** Text after a second `/` is ignored. */
  lemma SplitPairIgnoresRest(binder: string, target: string, rest: string)
    requires '/' !in binder && '/' !in target && '/' !in rest
    ensures SplitPair(binder + "/" + target + "/" + rest) == SplitPair(binder + "/" + target)
  {
    var s := binder + "/" + target;
    var s3 := binder + "/" + target + "/" + rest;
    assert Join([binder, target], '/') == s;
    assert Join([binder, target, rest], '/') == s3;
    SplitJoin([binder, target], '/');
    SplitJoin([binder, target, rest], '/');
    assert s[|binder|] == '/';
    assert s3[|binder|] == '/';
  }

  /** One protein entry of a job, with its copy number. */
  datatype Chain = Chain(sequence: string, count: nat)

  /** Lines 92-100: a job is named and holds a binder and a target. */
  datatype Job = Job(name: string, binder: string, target: string)

  /** The job's `modelContents.protein` list: binder first, then target,
      each with count 1. */
  function Proteins(job: Job): (chains: seq<Chain>)
    ensures |chains| == 2 && chains[0].sequence == job.binder && chains[1].sequence == job.target
    ensures forall k | 0 <= k < 2 :: chains[k].count == 1
  {
    [Chain(job.binder, 1), Chain(job.target, 1)]
  }

  /** Line 76: `design_{idx}_{batch}`, where `row.get('batch', 'b1')` gives
      `b1` only when the table has no batch column, and a missing cell
      prints as `nan`. */
  function DesignName(t: Table, idx: nat): (name: string)
    requires idx < |t.rows|
    ensures StartsWith(name, "design_")
  {
    "design_" + (NatToString(idx) + "_" + (if t.hasBatch then CellText(t.rows[idx].batch) else "b1"))
  }

  /** Different rows get different names. */
  lemma DesignNamesDistinct(t: Table, i: nat, j: nat)
    requires i < |t.rows| && j < |t.rows| && i != j
    ensures DesignName(t, i) != DesignName(t, j)
  {
    var bi := if t.hasBatch then CellText(t.rows[i].batch) else "b1";
    var bj := if t.hasBatch then CellText(t.rows[j].batch) else "b1";
    if DesignName(t, i) == DesignName(t, j) {
      var si := NatToString(i) + "_" + bi;
      var sj := NatToString(j) + "_" + bj;
      PrefixCancel("design_", si, sj);
      DigitsBeforeSeparator(NatToString(i), NatToString(j), '_', bi, bj);
      NatToStringInjective(i, j);
    }
  }

  /** Lines 51-59 for one row of a table that has a status column: pending
      (waiting or missing) and with a sequence. */
  predicate Selected(t: Table, idx: nat)
    requires idx < |t.rows|
  {
    PendingOrMissing(t.rows[idx].status) && t.rows[idx].sequence.Some?
  }

  /** Lines 78-100 for one row: the job it yields, if any. The sequence is
      the stripped cell text. */
  function JobFor(t: Table, idx: nat): (job: Option<Job>)
    requires idx < |t.rows|
    ensures job.Some? ==> Selected(t, idx)
    ensures job.Some? ==> job.value.name == DesignName(t, idx)
  {
    if !Selected(t, idx) then None
    else match SplitPair(Strip(t.rows[idx].sequence.value))
      case None => None
      case Some((binder, target)) => Some(Job(DesignName(t, idx), binder, target))
  }

  /** The job of every row of the table, if any. */
  function Plan(t: Table): (plan: seq<Option<Job>>)
    ensures |plan| == |t.rows|
    ensures forall i | 0 <= i < |t.rows| :: plan[i] == JobFor(t, i)
  {
    seq(|t.rows|, i requires 0 <= i < |t.rows| => JobFor(t, i))
  }

  /** Which entries of the plan hold a job. */
  function HasJob(plan: seq<Option<Job>>): (flags: seq<bool>)
    ensures |flags| == |plan|
    ensures forall i | 0 <= i < |plan| :: flags[i] == plan[i].Some?
  {
    seq(|plan|, i requires 0 <= i < |plan| => plan[i].Some?)
  }

  /** The jobs at the given positions of the plan, in order. */
  function JobsAt(plan: seq<Option<Job>>, indices: seq<nat>): (jobs: seq<Job>)
    requires forall k | 0 <= k < |indices| :: indices[k] < |plan| && plan[indices[k]].Some?
    ensures |jobs| == |indices|
    ensures forall k | 0 <= k < |indices| :: jobs[k] == plan[indices[k]].value
  {
    seq(|indices|, k requires 0 <= k < |indices| => plan[indices[k]].value)
  }

  /** The indices of the rows that yield a job, in order. */
  function Packaged(t: Table): seq<nat> {
    Positions(HasJob(Plan(t)))
  }

  /** The jobs of the run, in row order. */
  function Jobs(t: Table): seq<Job> {
    JobsAt(Plan(t), Packaged(t))
  }

  /** Lines 104-107: the FASTA file of one job, named after it, holding one
      record `>{name}` followed by `binder/target`. */
  function FastaOf(job: Job): (file: (string, string))
    ensures file.0 == job.name + ".fasta"
  {
    (job.name + ".fasta", ">" + job.name + "\n" + job.binder + "/" + job.target + "\n")
  }

  function FastasOf(jobs: seq<Job>): (files: seq<(string, string)>)
    ensures |files| == |jobs|
    ensures forall k | 0 <= k < |jobs| :: files[k] == FastaOf(jobs[k])
  {
    seq(|jobs|, k requires 0 <= k < |jobs| => FastaOf(jobs[k]))
  }

  /** Lines 72-90 for the row at `idx`: the job it yields, if any. */
  method PackRow(t: Table, idx: nat) returns (job: Option<Job>)
    requires idx < |t.rows|
    ensures job == JobFor(t, idx)
  {
    var row := t.rows[idx];
    if !(PendingOrMissing(row.status) && row.sequence.Some?) {
      return None;
    }
    var pair := SplitPair(Strip(row.sequence.value));
    if pair.None? {
      return None;
    }
    var batch := if t.hasBatch then CellText(row.batch) else "b1";
    var name := "design_" + (NatToString(idx) + "_" + batch);
    job := Some(Job(name, pair.value.0, pair.value.1));
  }

  /** Lines 72-109: the loop over the rows, collecting one job, one FASTA
      file and the row index for every row that yields a job. */
  method CollectJobs(t: Table) returns (jobs: seq<Job>, fastas: seq<(string, string)>, processed: seq<nat>)
    ensures processed == Packaged(t)
    ensures jobs == Jobs(t)
    ensures fastas == FastasOf(jobs)
  {
    ghost var plan := Plan(t);
    ghost var flags := HasJob(plan);
    jobs, fastas, processed := [], [], [];
    for idx := 0 to |t.rows|
      invariant processed == Positions(flags[..idx])
      invariant jobs == JobsAt(plan, processed)
      invariant fastas == FastasOf(jobs)
    {
      var job := PackRow(t, idx);
      assert job == plan[idx];
      PositionsStep(flags, idx);
      if job.Some? {
        JobsAtStep(plan, processed, idx);
        FastasOfStep(jobs, job.value);
        jobs := jobs + [job.value];
        fastas := fastas + [FastaOf(job.value)];
        processed := processed + [idx];
      }
    }
    assert flags[..|t.rows|] == flags;
  }

  lemma JobsAtStep(plan: seq<Option<Job>>, indices: seq<nat>, idx: nat)
    requires forall k | 0 <= k < |indices| :: indices[k] < |plan| && plan[indices[k]].Some?
    requires idx < |plan| && plan[idx].Some?
    ensures JobsAt(plan, indices + [idx]) == JobsAt(plan, indices) + [plan[idx].value]
  {
  }

  lemma FastasOfStep(jobs: seq<Job>, job: Job)
    ensures FastasOf(jobs + [job]) == FastasOf(jobs) + [FastaOf(job)]
  {
  }

  /** What one run leaves behind: the repaired ledger text if the file was
      repaired, the upload file (name and jobs) and the FASTA files of the
      batch, the ledger written back, if any, and the exception that ended
      the run, if any. */
  datatype Outcome = Outcome(
    repaired: Option<seq<string>>,
    upload: Option<(string, seq<Job>)>,
    fastas: seq<(string, string)>,
    ledger: Option<Table>,
    raised: Option<PandasError>)

  /** The ledger the run works on: the repaired file when pandas could not
      read the original, the table pandas read otherwise. */
  function Loaded(readFails: bool, lines: seq<string>, parsed: Table): Table {
    if readFails then ReadRepaired(RepairedData(lines)) else parsed
  }

  /** Lines 39-129. `present` and `readFails` say whether the history file
      exists and whether pandas fails on it; `lines` is its text and
      `parsed` what pandas reads when it succeeds; `timestamp` is the
      clock reading that names the batch. A ledger without a `sequence`
      column raises `KeyError` at line 59, before any file is written. */
  method RunPipeline(present: bool, readFails: bool, lines: seq<string>, parsed: Table, timestamp: string)
    returns (out: Outcome)
    ensures !present ==> out == Outcome(None, None, [], None, None)
    ensures present ==> out.repaired == (if readFails then Some(Render(RepairedData(lines))) else None)
    ensures present ==>
      var t := WithStatusColumn(Loaded(readFails, lines, parsed));
      var jobs := Jobs(t);
      if !t.hasSequence then
        out.upload.None? && out.fastas == [] && out.ledger.None? && out.raised == Some(KeyError("sequence"))
      else
        && out.raised.None?
        && out.fastas == FastasOf(jobs)
        && (out.upload.Some? <==> jobs != [])
        && (out.upload.Some? ==> out.upload.value == ("af3_upload_FULL_" + timestamp + ".json", jobs))
        && (out.ledger.Some? <==> jobs != [])
        && (out.ledger.Some? ==> out.ledger.value == WithStatusAt(t, AsSet(Packaged(t)), ReadyForGoogle))
  {
    if !present {
      return Outcome(None, None, [], None, None);
    }
    var repaired := RepairIfNeeded(present, readFails, lines);
    var loaded := if repaired.Some? then ReadRepaired(RepairedData(lines)) else parsed;
    var frame := new Frame(loaded);
    frame.AddStatusColumnIfMissing();
    if !frame.hasSequence {
      return Outcome(repaired, None, [], None, Some(KeyError("sequence")));
    }
    var jobs, fastas, processed := CollectJobs(frame.Contents());
    if jobs != [] {
      frame.SetStatusAt(AsSet(processed), ReadyForGoogle);
      return Outcome(repaired, Some(("af3_upload_FULL_" + timestamp + ".json", jobs)), fastas, Some(frame.Contents()), None);
    }
    return Outcome(repaired, None, fastas, None, None);
  }

  /** A row is packaged exactly when it yields a job. */
  lemma PackagedExactly(t: Table, i: nat)
    requires i < |t.rows|
    ensures i in AsSet(Packaged(t)) <==> JobFor(t, i).Some?
  {
  }

  /** The ledger written back: packaged rows are `ready_for_google`, every
      other row, skipped ones included, is unchanged. */
  lemma OnlyPackagedRowsMove(t: Table, i: nat)
    requires i < |t.rows|
    ensures var after := WithStatusAt(t, AsSet(Packaged(t)), ReadyForGoogle);
      && (JobFor(t, i).Some? ==> after.rows[i].status == ReadyForGoogle)
      && (JobFor(t, i).None? ==> after.rows[i] == t.rows[i])
  {
    PackagedExactly(t, i);
  }

  /** Running the packager again on the ledger it wrote builds no job:
      packaged rows are no longer pending and skipped rows are skipped
      again. */
  lemma SecondRunBuildsNothing(t: Table)
    ensures var after := WithStatusAt(t, AsSet(Packaged(t)), ReadyForGoogle);
      Jobs(after) == []
  {
    var after := WithStatusAt(t, AsSet(Packaged(t)), ReadyForGoogle);
    forall i | 0 <= i < |after.rows| ensures Plan(after)[i].None? {
      PackagedExactly(t, i);
      if i !in AsSet(Packaged(t)) {
        assert after.rows[i] == t.rows[i];
        assert DesignName(after, i) == DesignName(t, i);
      }
    }
    PositionsNone(HasJob(Plan(after)));
  }

  /** The jobs of one run have pairwise different names, so no FASTA file
      of the batch overwrites another. */
  lemma JobNamesDistinct(t: Table, k: nat, l: nat)
    requires k < l < |Jobs(t)|
    ensures Jobs(t)[k].name != Jobs(t)[l].name
  {
    var idx := Packaged(t);
    DesignNamesDistinct(t, idx[k], idx[l]);
  }

  /** Each job's FASTA record holds its binder and target joined by `/`,
      which split back into the job's chains. */
  lemma FastaRecordSplitsBack(t: Table, k: nat)
    requires k < |Jobs(t)|
    ensures var job := Jobs(t)[k];
      SplitPair(job.binder + "/" + job.target) == Some((job.binder, job.target))
  {
    var idx := Packaged(t)[k];
    var job := Jobs(t)[k];
    var pair := SplitPair(Strip(t.rows[idx].sequence.value));
    assert pair == Some((job.binder, job.target));
    SplitPairChainsClean(Strip(t.rows[idx].sequence.value));
    SplitPairRoundTrip(job.binder, job.target);
  }

  /** The chains `SplitPair` returns contain no `/`. */
  lemma SplitPairChainsClean(fullSeq: string)
    requires SplitPair(fullSeq).Some?
    ensures '/' !in SplitPair(fullSeq).value.0 && '/' !in SplitPair(fullSeq).value.1
  {
    var parts := Split(fullSeq, '/');
    SplitPieces(fullSeq, '/');
    StripKeepsAbsent(parts[0], '/');
    StripKeepsAbsent(parts[1], '/');
  }

  /** A row waiting or without status, whose sequence is `binder/target`
      with chains of at least five residues, is packaged. */
  lemma PendingRowPackaged(t: Table, i: nat, binder: string, target: string)
    requires i < |t.rows| && PendingOrMissing(t.rows[i].status)
    requires t.rows[i].sequence == Some(binder + "/" + target)
    requires '/' !in binder && '/' !in target && Stripped(binder) && Stripped(target)
    requires |binder| >= MinChainLength && |target| >= MinChainLength
    ensures JobFor(t, i) == Some(Job(DesignName(t, i), binder, target))
  {
    PairTextSplits(binder, target);
    JobOfSplit(t, i, binder, target);
  }

  lemma PairTextSplits(binder: string, target: string)
    requires '/' !in binder && '/' !in target && Stripped(binder) && Stripped(target)
    requires |binder| >= MinChainLength && |target| >= MinChainLength
    ensures SplitPair(Strip(binder + "/" + target)) == Some((binder, target))
  {
    PairTextStrips(binder, target);
    SplitPairRoundTrip(binder, target);
  }

  lemma JobOfSplit(t: Table, i: nat, binder: string, target: string)
    requires i < |t.rows| && Selected(t, i)
    requires SplitPair(Strip(t.rows[i].sequence.value)) == Some((binder, target))
    ensures JobFor(t, i) == Some(Job(DesignName(t, i), binder, target))
  {
  }

  /** `binder/target` with non-empty stripped chains is already stripped. */
  lemma PairTextStrips(binder: string, target: string)
    requires Stripped(binder) && Stripped(target) && binder != [] && target != []
    ensures Strip(binder + "/" + target) == binder + "/" + target
  {
    var s := binder + "/" + target;
    assert s[0] == binder[0] && s[|s| - 1] == target[|target| - 1];
    StripStripped(s);
  }
}
