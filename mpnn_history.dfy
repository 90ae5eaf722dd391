/** `load_history` and `process_results` of scripts/run_02_mpnn_local_v2.py:
    the sequences ProteinMPNN wrote are read from the odd lines of its FASTA
    output, those not already in the ledger are appended with the run's
    timestamp and batch id, and the header is written only when the ledger
    is created. The ledger is a list of CSV records (lists of fields); the
    text encoding of a record is not modelled. */
module MpnnHistory {
  import opened Wrappers
  import opened Seqs
  import opened Text

  const HistoryHeader: seq<string> := ["sequence", "date", "batch"]

  /** Lines 51-59: the first field of every non-empty record after the
      first one. */
  function SeenSet(records: seq<seq<string>>): (seen: set<string>)
    ensures forall j | 1 <= j < |records| && records[j] != [] :: records[j][0] in seen
    ensures forall x | x in seen :: exists j | 1 <= j < |records| :: records[j] != [] && records[j][0] == x
  {
    set j | 1 <= j < |records| && records[j] != [] :: records[j][0]
  }

  /** Lines 51-59: the loop filling `seen`; an absent file gives the empty
      set. */
  method LoadHistory(file: Option<seq<seq<string>>>) returns (seen: set<string>)
    ensures file.None? ==> seen == {}
    ensures file.Some? ==> seen == SeenSet(file.value)
  {
    seen := {};
    if file.None? {
      return;
    }
    var records := file.value;
    if records == [] {
      return;
    }
    var j := 1;
    while j < |records|
      invariant 1 <= j <= |records|
      invariant seen == SeenSet(records[..j])
    {
      assert records[..j + 1][..j] == records[..j];
      if records[j] != [] {
        seen := seen + {records[j][0]};
      }
      j := j + 1;
    }
    assert records[..j] == records;
  }

  /** Lines 104-105: the stripped lines at odd positions 1, 3, 5, ... */
  function OddLines(lines: seq<string>): (seqs: seq<string>)
    ensures |seqs| == |lines| / 2
    ensures forall k | 0 <= k < |seqs| :: seqs[k] == Strip(lines[2 * k + 1])
  {
    seq(|lines| / 2, k requires 0 <= k < |lines| / 2 => Strip(lines[2 * k + 1]))
  }

  /** The candidates that are not in the history, in order and with
      repetitions. */
  function Unseen(history: set<string>, seqs: seq<string>): (r: seq<string>)
    ensures |r| <= |seqs|
    ensures forall k | 0 <= k < |r| :: r[k] !in history && r[k] in seqs
    ensures forall k | 0 <= k < |seqs| :: seqs[k] !in history ==> seqs[k] in r
  {
    if seqs == [] then []
    else
      var n := |seqs| - 1;
      var front := Unseen(history, seqs[..n]);
      assert forall k | 0 <= k < n :: seqs[..n][k] == seqs[k];
      if seqs[n] !in history then front + [seqs[n]] else front
  }

  /** Line 107: the records appended, one per unseen candidate; the `k`-th
      one carries the `k`-th clock reading. */
  function Entries(history: set<string>, seqs: seq<string>, stamp: nat -> string, batchId: string): (entries: seq<seq<string>>)
    ensures |entries| == |Unseen(history, seqs)|
    ensures forall k | 0 <= k < |entries| ::
      entries[k] == [Unseen(history, seqs)[k], stamp(k), batchId]
  {
    var unseen := Unseen(history, seqs);
    seq(|unseen|, k requires 0 <= k < |unseen| => [unseen[k], stamp(k), batchId])
  }

  /** Lines 109-115: the ledger after appending `entries`, with the header
      first when the file did not exist. */
  function Appended(file: Option<seq<seq<string>>>, entries: seq<seq<string>>): seq<seq<string>> {
    (if file.None? then [HistoryHeader] else file.value) + entries
  }

  /** Lines 104-107: the loop stepping `i` by two over the lines of the
      FASTA file, keeping the candidates not in the history. */
  method CollectNew(history: set<string>, lines: seq<string>, stamp: nat -> string, batchId: string)
    returns (entries: seq<seq<string>>)
    ensures entries == Entries(history, OddLines(lines), stamp, batchId)
  {
    ghost var seqs := OddLines(lines);
    entries := [];
    var i := 1;
    ghost var k := 0;
    while i < |lines|
      invariant i == 2 * k + 1 && k <= |seqs|
      invariant i >= |lines| ==> k == |seqs|
      invariant entries == Entries(history, seqs[..k], stamp, batchId)
    {
      var s := Strip(lines[i]);
      EntriesStep(history, seqs, k, stamp, batchId);
      if s !in history {
        entries := entries + [[s, stamp(|entries|), batchId]];
      }
      i := i + 2;
      k := k + 1;
    }
    assert seqs[..k] == seqs;
  }

  /** Looking at one more candidate appends its record when it is
      unseen. */
  lemma EntriesStep(history: set<string>, seqs: seq<string>, k: nat, stamp: nat -> string, batchId: string)
    requires k < |seqs|
    ensures var before := Entries(history, seqs[..k], stamp, batchId);
      Entries(history, seqs[..k + 1], stamp, batchId)
        == before + if seqs[k] !in history then [[seqs[k], stamp(|before|), batchId]] else []
  {
    assert seqs[..k + 1][..k] == seqs[..k];
    var u := Unseen(history, seqs[..k]);
    var u1 := Unseen(history, seqs[..k + 1]);
    assert u1 == u + if seqs[k] !in history then [seqs[k]] else [];
  }

  /** Lines 90-118. `faLines` is the text of the first `.fa` file found,
      if any; `file` the ledger before the call; `stamp(k)` the clock
      reading taken for the `k`-th new record. The result is the ledger
      afterwards. */
  method ProcessResults(history: set<string>, faLines: Option<seq<string>>, file: Option<seq<seq<string>>>,
                        stamp: nat -> string, batchId: string)
    returns (after: Option<seq<seq<string>>>)
    ensures faLines.None? ==> after == file
    ensures faLines.Some? ==>
      var entries := Entries(history, OddLines(faLines.value), stamp, batchId);
      after == if entries == [] then file else Some(Appended(file, entries))
  {
    if faLines.None? {
      return file;
    }
    var entries := CollectNew(history, faLines.value, stamp, batchId);
    if entries == [] {
      return file;
    }
    var existing := if file.None? then [HistoryHeader] else file.value;
    return Some(existing + entries);
  }

  /** Appending keeps the old records in front and writes the header only
      for a new file. */
  lemma AppendKeepsExisting(file: Option<seq<seq<string>>>, entries: seq<seq<string>>)
    ensures file.Some? ==> Appended(file, entries)[..|file.value|] == file.value
    ensures file.None? ==> Appended(file, entries)[0] == HistoryHeader
    ensures Appended(file, entries)[|Appended(file, entries)| - |entries|..] == entries
  {
  }

  /** Every appended record has three fields and a sequence that was not
      in the history. */
  lemma EntriesAreUnseen(history: set<string>, seqs: seq<string>, stamp: nat -> string, batchId: string, k: nat)
    requires k < |Entries(history, seqs, stamp, batchId)|
    ensures var e := Entries(history, seqs, stamp, batchId)[k];
      |e| == 3 && e[0] !in history && e[0] in seqs && e[2] == batchId
  {
  }

  /** After records are appended to a ledger that has a first record, the
      ledger's history holds the old history and every appended
      sequence. */
  lemma SeenAfterAppend(records: seq<seq<string>>, entries: seq<seq<string>>)
    requires records != []
    requires forall k | 0 <= k < |entries| :: entries[k] != []
    ensures SeenSet(records) <= SeenSet(records + entries)
    ensures forall k | 0 <= k < |entries| :: entries[k][0] in SeenSet(records + entries)
  {
    var all := records + entries;
    forall k | 0 <= k < |entries| ensures entries[k][0] in SeenSet(all) {
      assert all[|records| + k] == entries[k];
    }
    forall x | x in SeenSet(records) ensures x in SeenSet(all) {
      var j :| 1 <= j < |records| && records[j] != [] && records[j][0] == x;
      assert all[j] == records[j];
    }
  }

  /** The `m`-th appended record carries the `m`-th unseen candidate. */
  lemma EntryHoldsCandidate(history: set<string>, seqs: seq<string>, stamp: nat -> string, batchId: string, m: nat)
    requires m < |Unseen(history, seqs)|
    ensures |Entries(history, seqs, stamp, batchId)| > m
    ensures Entries(history, seqs, stamp, batchId)[m][0] == Unseen(history, seqs)[m]
  {
  }

  /** No candidate is unseen when all are in the history. */
  lemma NothingUnseen(history: set<string>, seqs: seq<string>)
    requires forall k | 0 <= k < |seqs| :: seqs[k] in history
    ensures Unseen(history, seqs) == []
  {
  }

  /** Running the stage twice on the same ProteinMPNN output appends
      nothing the second time, provided the ledger was absent or had a
      first record before the first run. */
  lemma DedupAcrossRuns(file: Option<seq<seq<string>>>, lines: seq<string>,
                        stamp1: nat -> string, batch1: string, stamp2: nat -> string, batch2: string)
    requires file.None? || file.value != []
    ensures var history1 := if file.None? then {} else SeenSet(file.value);
      var entries1 := Entries(history1, OddLines(lines), stamp1, batch1);
      var after := if entries1 == [] then file else Some(Appended(file, entries1));
      var history2 := if after.None? then {} else SeenSet(after.value);
      Entries(history2, OddLines(lines), stamp2, batch2) == []
  {
    var seqs := OddLines(lines);
    var history1 := if file.None? then {} else SeenSet(file.value);
    var entries1 := Entries(history1, seqs, stamp1, batch1);
    var after := if entries1 == [] then file else Some(Appended(file, entries1));
    var history2 := if after.None? then {} else SeenSet(after.value);
    if entries1 == [] {
      assert Unseen(history1, seqs) == [];
      assert forall k | 0 <= k < |seqs| :: seqs[k] in history2;
    } else {
      var base := if file.None? then [HistoryHeader] else file.value;
      SeenAfterAppend(base, entries1);
      forall k | 0 <= k < |seqs| ensures seqs[k] in history2 {
        if seqs[k] !in history1 {
          var u := Unseen(history1, seqs);
          var m :| 0 <= m < |u| && u[m] == seqs[k];
          EntryHoldsCandidate(history1, seqs, stamp1, batch1, m);
        }
      }
    }
    NothingUnseen(history2, seqs);
  }

  /** The candidates of a one-record FASTA text. */
  lemma OneRecord(header: string, line: string)
    ensures OddLines([header, line]) == [Strip(line)]
  {
  }

  /** The candidates of a two-record FASTA text. */
  lemma TwoRecords(header1: string, line1: string, header2: string, line2: string)
    ensures OddLines([header1, line1, header2, line2]) == [Strip(line1), Strip(line2)]
  {
  }

  /** A lone candidate outside the history is kept. */
  lemma UnseenOne(history: set<string>, s: string)
    requires s !in history
    ensures Unseen(history, [s]) == [s]
  {
    assert [s][..0] == [];
  }

  /** A lone unseen candidate gives one record with the first clock
      reading. */
  lemma EntriesOfOne(history: set<string>, s: string, stamp: nat -> string, batchId: string)
    requires s !in history
    ensures Entries(history, [s], stamp, batchId) == [[s, stamp(0), batchId]]
  {
    UnseenOne(history, s);
  }

  /** A ledger of one record has an empty history: that record is read as
      the header. */
  lemma SeenSetOfOne(record: seq<string>)
    ensures SeenSet([record]) == {}
  {
  }

  /** When the ledger exists but is empty, the first appended record takes
      the place of the header and is skipped by the next load, so the
      same sequence is appended again by the next run. */
  lemma EmptyLedgerForgetsFirstRecord(s: string, stamp1: nat -> string, batch1: string,
                                      stamp2: nat -> string, batch2: string)
    requires Stripped(s)
    ensures var lines := [">design", s];
      var entries1 := Entries({}, OddLines(lines), stamp1, batch1);
      && entries1 == [[s, stamp1(0), batch1]]
      && Appended(Some([]), entries1) == entries1
      && Entries(SeenSet(entries1), OddLines(lines), stamp2, batch2) == [[s, stamp2(0), batch2]]
  {
    OneRecord(">design", s);
    StripStripped(s);
    EntriesOfOne({}, s, stamp1, batch1);
    SeenSetOfOne([s, stamp1(0), batch1]);
    EntriesOfOne({}, s, stamp2, batch2);
  }

  /** Candidates repeated within one output file are all appended, since
      the history is not updated inside the loop. */
  lemma DuplicatesWithinRunKept(history: set<string>, s: string, stamp: nat -> string, batchId: string)
    requires Stripped(s) && s !in history
    ensures Entries(history, OddLines([">a", s, ">b", s]), stamp, batchId)
      == [[s, stamp(0), batchId], [s, stamp(1), batchId]]
  {
    var seqs := OddLines([">a", s, ">b", s]);
    TwoRecords(">a", s, ">b", s);
    StripStripped(s);
    assert seqs == [s, s];
    UnseenTwice(history, s);
    var e := Entries(history, seqs, stamp, batchId);
    assert |e| == 2 && e[0] == [s, stamp(0), batchId] && e[1] == [s, stamp(1), batchId];
    PairElements(e);
  }

  /** A repeated unseen candidate is kept twice. */
  lemma UnseenTwice(history: set<string>, s: string)
    requires s !in history
    ensures Unseen(history, [s, s]) == [s, s]
  {
    UnseenOne(history, s);
    assert [s, s][..1] == [s];
  }
}
