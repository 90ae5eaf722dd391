/** `prepare_new_sequences` of scripts/run_03_alphafold_pipeline.py and
    `prepare_sequences_for_validation` of
    scripts/run_03_alphafold_pipeline_local.py: every row whose status is
    exactly `waiting_validation` gets one FASTA file and moves to
    `fasta_ready`. The two scripts differ only in the file name and the
    record header. */
module FastaExport {
  import opened Wrappers
  import opened Seqs
  import opened Text
  import opened Ledger
  import AlphaFoldPackager

  /** Which script: the remote variant (`run_03_alphafold_pipeline.py`) or
      the local one (`run_03_alphafold_pipeline_local.py`). */
  datatype Variant = Remote | Local

  /** Line 51 (remote) and line 53 (local): `design_{batch}_{idx}.fasta`
      and `target_{batch}_{idx}.fasta`. */
  function FileName(v: Variant, batch: string, idx: nat): (name: string)
    ensures v.Remote? ==> StartsWith(name, "design_")
    ensures v.Local? ==> StartsWith(name, "target_")
  {
    (if v.Remote? then "design_" else "target_") + batch + "_" + NatToString(idx) + ".fasta"
  }

  /** Line 55 (remote) and line 58 (local): the header names the row, and
      the local one also the batch; the sequence follows on one line. */
  function Record(v: Variant, batch: string, idx: nat, sequence: string): (text: string)
    ensures StartsWith(text, ">design_" + NatToString(idx))
  {
    var header := if v.Remote? then ">design_" + NatToString(idx)
      else ">design_" + NatToString(idx) + "_batch_" + batch;
    assert (header + "\n" + sequence + "\n")[..|">design_" + NatToString(idx)|] == header[..|">design_" + NatToString(idx)|];
    header + "\n" + sequence + "\n"
  }

  /** Line 38 (remote) and line 40 (local): which rows are pending. */
  function PendingFlags(t: Table): (flags: seq<bool>)
    ensures |flags| == |t.rows|
    ensures forall i | 0 <= i < |t.rows| :: flags[i] == PendingStrict(t.rows[i].status)
  {
    seq(|t.rows|, i requires 0 <= i < |t.rows| => PendingStrict(t.rows[i].status))
  }

  /** The index of `to_process`: the pending rows, in order. */
  function Pending(t: Table): (r: seq<nat>)
    ensures forall k | 0 <= k < |r| :: r[k] < |t.rows| && t.rows[r[k]].status == Waiting
    ensures forall i | 0 <= i < |t.rows| :: i in r <==> t.rows[i].status == Waiting
  {
    Positions(PendingFlags(t))
  }

  /** The file written for the row at `idx`: its name and its content. A
      missing cell prints as `nan`. */
  function ExportFile(v: Variant, t: Table, idx: nat): (file: (string, string))
    requires idx < |t.rows|
  {
    var row := t.rows[idx];
    (FileName(v, CellText(row.batch), idx), Record(v, CellText(row.batch), idx, CellText(row.sequence)))
  }

  function ExportFiles(v: Variant, t: Table): (files: seq<(string, string)>)
    ensures |files| == |Pending(t)|
    ensures forall k | 0 <= k < |files| :: files[k] == ExportFile(v, t, Pending(t)[k])
  {
    var pending := Pending(t);
    seq(|pending|, k requires 0 <= k < |pending| => ExportFile(v, t, pending[k]))
  }

  /** What one run leaves behind: the FASTA files written, the ledger
      saved back, if any, and the exception that ended the run, if any. */
  datatype Export = Export(files: seq<(string, string)>, saved: Option<Table>, raised: Option<PandasError>)

  /** The whole function. `present` says whether the history file exists,
      `readFails` whether `read_csv` raises on it (there is no `try`), and
      `parsed` is what pandas reads when it does not. A missing `sequence`
      or `batch` column raises `KeyError` at the first pending row, before
      any file is written. */
  method Prepare(v: Variant, present: bool, readFails: bool, parsed: Table) returns (out: Export)
    ensures !present ==> out == Export([], None, None)
    ensures present && readFails ==> out == Export([], None, Some(ParserError))
    ensures present && !readFails ==>
      var t := WithStatusColumn(parsed);
      out == if Pending(t) == [] then Export([], None, None)
        else if !t.hasSequence then Export([], None, Some(KeyError("sequence")))
        else if !t.hasBatch then Export([], None, Some(KeyError("batch")))
        else Export(ExportFiles(v, t), Some(WithStatusAt(t, AsSet(Pending(t)), FastaReady)), None)
  {
    if !present {
      return Export([], None, None);
    }
    if readFails {
      return Export([], None, Some(ParserError));
    }
    var frame := new Frame(parsed);
    frame.AddStatusColumnIfMissing();
    var toProcess := frame.Contents();
    var pending := Pending(toProcess);
    if pending == [] {
      return Export([], None, None);
    }
    // the first `row['sequence']`, then `row['batch']`, raises before any
    // file is written
    if !toProcess.hasSequence {
      return Export([], None, Some(KeyError("sequence")));
    }
    if !toProcess.hasBatch {
      return Export([], None, Some(KeyError("batch")));
    }
    var files := ExportPending(v, frame, toProcess, pending);
    return Export(files, Some(frame.Contents()), None);
  }

  /** Lines 46-58 (remote) and 48-61 (local) on a table with a batch
      column: one file per pending row, whose status becomes `fasta_ready`
      in place. */
  method ExportPending(v: Variant, frame: Frame, toProcess: Table, pending: seq<nat>)
    returns (files: seq<(string, string)>)
    requires frame.Contents() == toProcess && pending == Pending(toProcess)
    modifies frame.rows
    ensures files == ExportFiles(v, toProcess)
    ensures frame.Contents() == WithStatusAt(toProcess, AsSet(pending), FastaReady)
  {
    files := [];
    ghost var want := ExportFiles(v, toProcess);
    for k := 0 to |pending|
      invariant frame.Contents() == WithStatusAt(toProcess, AsSet(pending[..k]), FastaReady)
      invariant files == want[..k]
    {
      var idx := pending[k];
      var row := toProcess.rows[idx];
      var batch := CellText(row.batch);
      PrefixStep(want, k);
      files := files + [(FileName(v, batch, idx), Record(v, batch, idx, CellText(row.sequence)))];
      WithStatusAtStep(toProcess, AsSet(pending[..k]), idx, FastaReady);
      AsSetStep(pending, k);
      frame.SetStatus(idx, FastaReady);
    }
    assert pending[..|pending|] == pending;
    assert want[..|pending|] == want;
  }

  /** The saved ledger: every row that was waiting is `fasta_ready`, every
      other row is unchanged. */
  lemma ExportMovesOnlyWaiting(t: Table, i: nat)
    requires i < |t.rows|
    ensures var saved := WithStatusAt(t, AsSet(Pending(t)), FastaReady);
      && (t.rows[i].status == Waiting ==> saved.rows[i] == t.rows[i].(status := FastaReady))
      && (t.rows[i].status != Waiting ==> saved.rows[i] == t.rows[i])
  {
  }

  /** A second run on the saved ledger finds nothing pending, so it writes
      no file and does not save. */
  lemma SecondExportIdle(t: Table)
    ensures Pending(WithStatusAt(t, AsSet(Pending(t)), FastaReady)) == []
  {
    var saved := WithStatusAt(t, AsSet(Pending(t)), FastaReady);
    PositionsNone(PendingFlags(saved));
  }

  /** Without a status column every row is pending. */
  lemma NoStatusColumnAllPending(t: Table)
    requires !t.hasStatus
    ensures forall i | 0 <= i < |t.rows| :: i in Pending(WithStatusColumn(t))
  {
  }

  /** The file names of one run are pairwise different, whatever the batch
      labels: the index after the last `_` tells the rows apart. */
  lemma FileNamesDistinct(v: Variant, t: Table, k: nat, l: nat)
    requires k < l < |Pending(t)|
    ensures ExportFiles(v, t)[k].0 != ExportFiles(v, t)[l].0
  {
    var i, j := Pending(t)[k], Pending(t)[l];
    var bi, bj := CellText(t.rows[i].batch), CellText(t.rows[j].batch);
    var p := if v.Remote? then "design_" else "target_";
    var ni, nj := FileName(v, bi, i), FileName(v, bj, j);
    if ni == nj {
      var xi, xj := p + bi + "_" + NatToString(i), p + bj + "_" + NatToString(j);
      assert ni == xi + ".fasta" && nj == xj + ".fasta";
      assert xi == ni[..|ni| - 6] && xj == nj[..|nj| - 6];
      assert xi == (p + bi) + ['_'] + NatToString(i);
      assert xj == (p + bj) + ['_'] + NatToString(j);
      DigitsAfterSeparator(p + bi, p + bj, '_', NatToString(i), NatToString(j));
      NatToStringInjective(i, j);
    }
  }

  /** The two pending filters disagree on a row without status: the export
      skips it, the packager packages it when its sequence is a valid
      `binder/target` pair. */
  lemma MissingStatusDiffers(t: Table, i: nat, binder: string, target: string)
    requires i < |t.rows| && t.rows[i].status == Missing
    requires t.rows[i].sequence == Some(binder + "/" + target)
    requires '/' !in binder && '/' !in target && Stripped(binder) && Stripped(target)
    requires |binder| >= AlphaFoldPackager.MinChainLength && |target| >= AlphaFoldPackager.MinChainLength
    ensures i !in Pending(t)
    ensures AlphaFoldPackager.JobFor(t, i).Some?
  {
    AlphaFoldPackager.PendingRowPackaged(t, i, binder, target);
  }
}
