/** The module-level loop of scripts/prepare_af3_json.py: for each `.fa`
    file the last line is stripped, its second `/`-separated segment is the
    binder, and one AlphaFold Server job pairs the fixed PD-1 chain with
    it. Files that cannot be read, are empty or have no `/` on their last
    line give no job; the job list is written in every case. */
module Af3Json {
  import opened Wrappers
  import opened Seqs
  import opened Text
  import opened Json

  /** Line 30: chain A of PD-1 in the 4ZQK structure. */
  const TargetChain := "PGWFLDSPDRPWNPPTFSPALLVVTEGDNATFTCSFSNTSESFVLNWYRMSPSNQTDKLAAFPEDRSQPGQDCRFRVTQLPNGRDFHMSVVRARRNDSGTYLCGAISLAPKAQIKESLRAELRVTERRAEVPTAHPSPSPRPAGQFQTLVV"

  /** What reading one file gives: the binder, a last line without `/`
      (line 51), or an exception (line 77), such as the `IndexError` of
      `lines[-1]` on an empty file. */
  datatype Reading = Binder(sequence: string) | UnknownFormat | Unreadable

  /** Lines 40-52. `lines` is the file's lines, or None when opening it
      raises. */
  function ReadBinder(lines: Option<seq<string>>): (r: Reading)
    ensures r.Unreadable? <==> lines.None? || lines.value == []
    ensures r.UnknownFormat? <==> lines.Some? && lines.value != [] && '/' !in Strip(lines.value[|lines.value| - 1])
    ensures r.Binder? ==> '/' !in r.sequence
  {
    if lines.None? || lines.value == [] then Unreadable
    else
      var seqLine := Strip(lines.value[|lines.value| - 1]);
      if '/' in seqLine then SplitPieces(seqLine, '/'); Binder(Split(seqLine, '/')[1]) else UnknownFormat
  }

  /** The binder is the second segment of the last line, whatever the
      earlier lines hold and however many segments follow. */
  lemma BinderIsSecondSegment(lines: seq<string>, parts: seq<string>)
    requires lines != [] && |parts| >= 2
    requires forall i | 0 <= i < |parts| :: '/' !in parts[i]
    requires Strip(lines[|lines| - 1]) == Join(parts, '/')
    ensures ReadBinder(Some(lines)) == Binder(parts[1])
  {
    var last := Strip(lines[|lines| - 1]);
    SplitJoin(parts, '/');
    assert Split(last, '/') == parts;
    assert '/' in last;
  }

  /** Line 55: every `.fa` in the file name removed. */
  function JobName(basename: string): string {
    ReplaceAll(basename, ".fa", "")
  }

  /** A name without dots loses exactly its extension, and a doubled
      extension goes too. */
  lemma JobNameOfStem(stem: string)
    requires '.' !in stem
    ensures JobName(stem + ".fa") == stem
    ensures JobName(stem + ".fa" + ".fa") == stem
  {
    ReplaceAfterPlainPrefix(stem, ".fa", "", []);
    assert stem + ".fa" + [] == stem + ".fa";
    ReplaceAfterPlainPrefix(stem, ".fa", "", ".fa");
    ReplaceAfterPlainPrefix([], ".fa", "", []);
    assert [] + ".fa" + [] == ".fa";
  }

  /** Lines 61-72: one protein chain entity. */
  function Chain(sequence: string): Value {
    Obj(map["proteinChain" := Obj(map["sequence" := Str(sequence), "count" := Int(1)])])
  }

  /** Lines 57-74: the job, the target chain first and the binder second,
      with no model seeds. */
  function Job(name: string, binder: string): Value {
    Obj(map["name" := Str(name), "modelSeeds" := Arr([]),
            "sequences" := Arr([Chain(TargetChain), Chain(binder)])])
  }

  /** A job records its name and binder: two jobs are equal exactly when
      both agree; the first chain is always the PD-1 target and the second
      the binder. */
  lemma JobDeterminesInputs(name1: string, binder1: string, name2: string, binder2: string)
    ensures Job(name1, binder1) == Job(name2, binder2) <==> name1 == name2 && binder1 == binder2
    ensures Job(name1, binder1).fields["sequences"].items[0] == Chain(TargetChain)
    ensures Job(name1, binder1).fields["sequences"].items[1] == Chain(binder1)
  {
    if Job(name1, binder1) == Job(name2, binder2) {
      assert Job(name1, binder1).fields["name"] == Job(name2, binder2).fields["name"];
      var c1 := Job(name1, binder1).fields["sequences"].items[1];
      var c2 := Job(name2, binder2).fields["sequences"].items[1];
      assert c1.fields["proteinChain"].fields["sequence"] == c2.fields["proteinChain"].fields["sequence"];
    }
  }

  /** One file found by the glob: its base name and its lines, or None
      when opening it raises. */
  datatype FastaFile = FastaFile(basename: string, lines: Option<seq<string>>)

  /** The job a file contributes, if any. */
  function JobOf(file: FastaFile): Option<Value> {
    match ReadBinder(file.lines)
    case Binder(b) => Some(Job(JobName(file.basename), b))
    case _ => None
  }

  /** The jobs of the files, in the order the glob listed them. */
  function Jobs(files: seq<FastaFile>): (jobs: seq<Value>)
    ensures |jobs| <= |files|
  {
    if files == [] then []
    else
      var n := |files| - 1;
      var job := JobOf(files[n]);
      Jobs(files[..n]) + if job.Some? then [job.value] else []
  }

  /** Lines 32-83: the loop over the files and the JSON written afterwards,
      a list of jobs that may be empty. */
  method PrepareJobs(files: seq<FastaFile>) returns (written: Value)
    ensures written == Arr(Jobs(files))
  {
    var jobs: seq<Value> := [];
    for i := 0 to |files|
      invariant jobs == Jobs(files[..i])
    {
      assert files[..i + 1][..i] == files[..i];
      var file := files[i];
      var reading := ReadBinder(file.lines);
      if reading.Binder? {
        jobs := jobs + [Job(JobName(file.basename), reading.sequence)];
      }
    }
    assert files[..|files|] == files;
    written := Arr(jobs);
  }

  /** Every job is the job of one of the files. */
  lemma {:induction false} JobsFromFiles(files: seq<FastaFile>)
    ensures forall k | 0 <= k < |Jobs(files)| :: exists i | 0 <= i < |files| :: JobOf(files[i]) == Some(Jobs(files)[k])
  {
    if files != [] {
      var n := |files| - 1;
      JobsFromFiles(files[..n]);
      var front := Jobs(files[..n]);
      var job := JobOf(files[n]);
      assert Jobs(files) == front + if job.Some? then [job.value] else [];
      forall k | 0 <= k < |Jobs(files)| ensures exists i | 0 <= i < |files| :: JobOf(files[i]) == Some(Jobs(files)[k]) {
        if k < |front| {
          var i :| 0 <= i < n && JobOf(files[..n][i]) == Some(front[k]);
          assert files[..n][i] == files[i];
          assert Jobs(files)[k] == front[k];
          assert JobOf(files[i]) == Some(Jobs(files)[k]);
        } else {
          assert JobOf(files[n]) == Some(Jobs(files)[k]);
        }
      }
    } else {
      assert |Jobs(files)| == 0;
    }
  }

  /** A file that gives no job does not stop the files after it. */
  lemma {:induction false} SkippedFileIgnored(before: seq<FastaFile>, skipped: FastaFile, after: seq<FastaFile>)
    requires !ReadBinder(skipped.lines).Binder?
    ensures Jobs(before + [skipped] + after) == Jobs(before + after)
    decreases |after|
  {
    if after == [] {
      var all := before + [skipped];
      assert all[..|all| - 1] == before;
      assert before + [skipped] + after == all;
      assert before + after == before;
    } else {
      var m := |after| - 1;
      var all := before + [skipped] + after;
      assert all[..|all| - 1] == before + [skipped] + after[..m];
      assert (before + after)[..|before + after| - 1] == before + after[..m];
      SkippedFileIgnored(before, skipped, after[..m]);
    }
  }

  /** Files that each give a job give one job each, in order. */
  lemma OneJobPerFile(files: seq<FastaFile>)
    requires forall i | 0 <= i < |files| :: JobOf(files[i]).Some?
    ensures |Jobs(files)| == |files|
    ensures forall i | 0 <= i < |files| :: Some(Jobs(files)[i]) == JobOf(files[i])
  {
    JobsArePresentOptions(files);
    SomesAllPresent(JobOptions(files));
  }

  /** The job each file contributes, or None. */
  function JobOptions(files: seq<FastaFile>): (opts: seq<Option<Value>>)
    ensures |opts| == |files|
    ensures forall i | 0 <= i < |files| :: opts[i] == JobOf(files[i])
  {
    seq(|files|, i requires 0 <= i < |files| => JobOf(files[i]))
  }

  lemma {:induction false} JobsArePresentOptions(files: seq<FastaFile>)
    ensures Jobs(files) == Somes(JobOptions(files))
  {
    if files != [] {
      var n := |files| - 1;
      var init := files[..n];
      JobsArePresentOptions(init);
      var opts := JobOptions(files);
      assert opts[..n] == JobOptions(init);
    }
  }
}
