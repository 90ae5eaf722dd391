/** The job-history ledger `data/processed_history.csv`: one row per
    designed sequence, with the status label the packaging stages advance.
    A row's cells are optional because pandas reads an empty field as a
    missing value (NaN); the table records which optional columns exist.
    `Frame` is the in-memory DataFrame whose status cells the stages
    overwrite in place before writing the whole table back. */
module Ledger {
  import opened Wrappers

  const WaitingLabel := "waiting_validation"
  const FastaReadyLabel := "fasta_ready"
  const ReadyForGoogleLabel := "ready_for_google"

  /** The status column. `Missing` is a NaN cell; `Other` keeps any label
      none of the stages writes. */
  datatype Status = Waiting | FastaReady | ReadyForGoogle | Missing | Other(text: string)

  predicate KnownLabel(s: string) {
    s == WaitingLabel || s == FastaReadyLabel || s == ReadyForGoogleLabel
  }

  /** How a status cell reads: an empty or missing cell is `Missing`, the
      three labels the pipeline writes are recognised, anything else is
      kept verbatim. */
  function ParseStatus(cell: Option<string>): (s: Status)
    ensures s.Other? ==> cell == Some(s.text) && s.text != "" && !KnownLabel(s.text)
    ensures s == Missing <==> cell == None || cell == Some("")
  {
    match cell
    case None => Missing
    case Some(text) =>
      if text == "" then Missing
      else if text == WaitingLabel then Waiting
      else if text == FastaReadyLabel then FastaReady
      else if text == ReadyForGoogleLabel then ReadyForGoogle
      else Other(text)
  }

  /** The cell a status is written as. */
  function StatusCell(s: Status): (cell: Option<string>)
    ensures cell.None? <==> s == Missing
  {
    match s
    case Waiting => Some(WaitingLabel)
    case FastaReady => Some(FastaReadyLabel)
    case ReadyForGoogle => Some(ReadyForGoogleLabel)
    case Missing => None
    case Other(text) => Some(text)
  }

  /** A status some cell can hold: an `Other` label is neither empty nor one
      of the three labels. */
  predicate Canonical(s: Status) {
    s.Other? ==> s.text != "" && !KnownLabel(s.text)
  }

  /** Writing a status and reading it back is the identity, and reading a
      non-empty cell and writing it back gives the cell. */
  lemma StatusRoundTrip(s: Status, cell: Option<string>)
    ensures Canonical(s) <==> ParseStatus(StatusCell(s)) == s
    ensures cell != Some("") ==> StatusCell(ParseStatus(cell)) == cell
  {
    if s.Other? && !Canonical(s) {
      assert ParseStatus(StatusCell(s)) != s;
    }
  }

  /** The pending filter of `posible_alphafold_total.py`: waiting or missing. */
  predicate PendingOrMissing(s: Status) {
    s == Waiting || s == Missing
  }

  /** The pending filter of both `run_03` scripts: exactly waiting. */
  predicate PendingStrict(s: Status) {
    s == Waiting
  }

  datatype Row = Row(
    sequence: Option<string>,
    date: Option<string>,
    batch: Option<string>,
    sourcePdb: Option<string>,
    status: Status)

  /** A ledger as pandas reads it. Each of the `sequence`, `batch` and
      `status` columns may be absent (a file written by an older stage or
      by hand); a row's cell for an absent column carries nothing. */
  datatype Table = Table(hasSequence: bool, hasBatch: bool, hasStatus: bool, rows: seq<Row>)

  /** An exception pandas raises on the ledger: `read_csv` on a file it
      cannot parse, or a missing column looked up by name. */
  datatype PandasError = ParserError | KeyError(column: string)

  /** How a cell prints in an f-string: a missing cell prints as `nan`. */
  function CellText(cell: Option<string>): string {
    match cell
    case None => "nan"
    case Some(text) => text
  }

  /** `df['status'] = 'waiting_validation'` when the column is absent. */
  function WithStatusColumn(t: Table): (r: Table)
    ensures r.hasStatus && r.hasSequence == t.hasSequence && r.hasBatch == t.hasBatch && |r.rows| == |t.rows|
    ensures forall i | 0 <= i < |t.rows| ::
      r.rows[i] == if t.hasStatus then t.rows[i] else t.rows[i].(status := Waiting)
  {
    if t.hasStatus then t
    else t.(hasStatus := true, rows := seq(|t.rows|, i requires 0 <= i < |t.rows| => t.rows[i].(status := Waiting)))
  }

  /** The table after the status of every row whose index is in `indices`
      has been set to `s`. */
  function WithStatusAt(t: Table, indices: set<nat>, s: Status): (r: Table)
    ensures r.hasSequence == t.hasSequence && r.hasStatus == t.hasStatus && r.hasBatch == t.hasBatch && |r.rows| == |t.rows|
    ensures forall i | 0 <= i < |t.rows| ::
      r.rows[i] == if i in indices then t.rows[i].(status := s) else t.rows[i]
  {
    t.(rows := seq(|t.rows|, i requires 0 <= i < |t.rows| =>
      if i in indices then t.rows[i].(status := s) else t.rows[i]))
  }

  /** Setting one more row's status is one more index in the set. */
  lemma WithStatusAtStep(t: Table, indices: set<nat>, i: nat, s: Status)
    requires i < |t.rows|
    ensures var before := WithStatusAt(t, indices, s);
      WithStatusAt(t, indices + {i}, s) == before.(rows := before.rows[i := before.rows[i].(status := s)])
  {
  }

  /** The DataFrame of one stage: rows are updated in place. */
  class Frame {
    var rows: array<Row>
    var hasSequence: bool
    var hasBatch: bool
    var hasStatus: bool

    constructor (t: Table)
      ensures Contents() == t && fresh(rows)
    {
      rows := new Row[|t.rows|](i requires 0 <= i < |t.rows| => t.rows[i]);
      hasSequence := t.hasSequence;
      hasBatch := t.hasBatch;
      hasStatus := t.hasStatus;
    }

    function Contents(): Table
      reads this, rows
    {
      Table(hasSequence, hasBatch, hasStatus, rows[..])
    }

    /** `df['status'] = 'waiting_validation'` when the column is absent. */
    method AddStatusColumnIfMissing()
      modifies this, rows
      ensures rows == old(rows)
      ensures Contents() == WithStatusColumn(old(Contents()))
    {
      if !hasStatus {
        forall i | 0 <= i < rows.Length {
          rows[i] := rows[i].(status := Waiting);
        }
        hasStatus := true;
      }
    }

    /** `df.at[idx, 'status'] = s`. */
    method SetStatus(idx: nat, s: Status)
      requires idx < rows.Length
      modifies rows
      ensures Contents() == old(Contents()).(rows := old(rows[..])[idx := old(rows[idx]).(status := s)])
    {
      rows[idx] := rows[idx].(status := s);
    }

    /** `df.loc[indices, 'status'] = s`. */
    method SetStatusAt(indices: set<nat>, s: Status)
      modifies rows
      ensures Contents() == WithStatusAt(old(Contents()), indices, s)
    {
      forall i | 0 <= i < rows.Length && i in indices {
        rows[i] := rows[i].(status := s);
      }
    }
  }
}
