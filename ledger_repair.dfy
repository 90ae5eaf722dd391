/** `repair_csv_if_needed` of scripts/posible_alphafold_total.py: when pandas
    cannot read the ledger, every line after the first is split naively on
    commas (no RFC 4180 quoting), cut or padded to five fields, cleaned of
    double quotes and surrounding whitespace, and the file is rewritten
    under a fixed header. */
module LedgerRepair {
  import opened Wrappers
  import opened Text
  import opened Ledger
  import opened Seqs

  const Header := "sequence,date,batch,source_pdb,status"
  const FieldCount := 5

  /** A field as the repair writes it. */
  predicate CleanText(f: string) {
    '"' !in f && ',' !in f && Stripped(f)
  }

  lemma WaitingLabelClean()
    ensures CleanText(WaitingLabel)
  {
    assert forall i | 0 <= i < |WaitingLabel| :: WaitingLabel[i] != '"' && WaitingLabel[i] != ',';
  }

  /** Line 35 on one field: every double quote removed, then stripped. */
  function CleanField(f: string): (r: string)
    ensures '"' !in r && Stripped(r)
    ensures ',' !in f ==> ',' !in r
  {
    var unquoted := ReplaceAll(f, "\"", "");
    ReplaceRemovesChar(f, '"');
    StripKeepsAbsent(unquoted, '"');
    assert ',' !in f ==> ',' !in Strip(unquoted) by {
      if ',' !in f {
        ReplaceAllKeepsAbsent(f, "\"", "", ',');
        StripKeepsAbsent(unquoted, ',');
      }
    }
    Strip(unquoted)
  }

  /** Field `i` of a line split into `parts`: the cleaned piece when there
      is one, `waiting_validation` otherwise. */
  function FieldAt(parts: seq<string>, i: nat): (f: string)
    requires forall j | 0 <= j < |parts| :: ',' !in parts[j]
    ensures CleanText(f)
  {
    WaitingLabelClean();
    if i < |parts| then CleanField(parts[i]) else WaitingLabel
  }

  /** The five fields built from the pieces of one line. */
  function Fields(parts: seq<string>): (fields: seq<string>)
    requires forall j | 0 <= j < |parts| :: ',' !in parts[j]
    ensures |fields| == FieldCount
    ensures forall i | 0 <= i < FieldCount :: fields[i] == FieldAt(parts, i)
  {
    seq(FieldCount, i requires 0 <= i < FieldCount => FieldAt(parts, i))
  }

  /** Lines 31-35 on one line: the stripped line split on every comma, the
      first five pieces kept, missing ones filled with `waiting_validation`
      (date, batch and source_pdb included), each cleaned. */
  function RepairLine(line: string): (fields: seq<string>)
    ensures |fields| == FieldCount
    ensures forall i | 0 <= i < FieldCount :: CleanText(fields[i])
  {
    SplitPieces(Strip(line), ',');
    Fields(Split(Strip(line), ','))
  }

  /** The data lines of the file: every line but the first. */
  function DataLines(lines: seq<string>): seq<string> {
    if lines == [] then [] else lines[1..]
  }

  /** The rows the repair builds, one per data line. */
  function RepairedData(lines: seq<string>): (data: seq<seq<string>>)
    ensures |data| == |DataLines(lines)|
    ensures forall j | 0 <= j < |data| :: |data[j]| == FieldCount
    ensures forall j | 0 <= j < |data| :: data[j] == RepairLine(DataLines(lines)[j])
  {
    seq(|DataLines(lines)|, i requires 0 <= i < |DataLines(lines)| => RepairLine(DataLines(lines)[i]))
  }

  /** Lines 31-35 for one line: the first five pieces, padded by the
      `while` loop, then cleaned. */
  method RepairOne(line: string) returns (fields: seq<string>)
    ensures fields == RepairLine(line)
  {
    var parts := Split(Strip(line), ',');
    SplitPieces(Strip(line), ',');
    var row := parts[..Min(FieldCount, |parts|)];
    while |row| < FieldCount
      invariant Min(FieldCount, |parts|) <= |row| <= FieldCount
      invariant forall i | 0 <= i < |row| :: row[i] == if i < |parts| then parts[i] else WaitingLabel
    {
      row := row + [WaitingLabel];
    }
    fields := seq(FieldCount, i requires 0 <= i < FieldCount => CleanField(row[i]));
    PaddedRowCleaned(parts, row);
  }

  /** The loop of lines 29-35: one five-field row per line after the header
      (a blank line included, since `split` returns at least one piece, so
      the guard of line 32 always holds). */
  method RepairRows(lines: seq<string>) returns (data: seq<seq<string>>)
    ensures data == RepairedData(lines)
  {
    var rest := DataLines(lines);
    ghost var want := RepairedData(lines);
    data := [];
    for k := 0 to |rest|
      invariant data == want[..k]
    {
      var fields := RepairOne(rest[k]);
      PrefixStep(want, k);
      data := data + [fields];
    }
    assert want[..|rest|] == want;
  }

  /** The text `df.to_csv` writes for the repaired rows, line by line. */
  function Render(data: seq<seq<string>>): (lines: seq<string>)
    ensures |lines| == |data| + 1 && lines[0] == Header + "\n"
  {
    [Header + "\n"] + seq(|data|, i requires 0 <= i < |data| => Join(data[i], ',') + "\n")
  }

  /** Lines 22-37: nothing happens when the file is missing or pandas reads
      it; otherwise the file is rewritten from the repaired rows. */
  method RepairIfNeeded(present: bool, readFails: bool, lines: seq<string>)
    returns (written: Option<seq<string>>)
    ensures written.Some? <==> present && readFails
    ensures written.Some? ==> written.value == Render(RepairedData(lines))
  {
    if !present { return None; }
    if !readFails { return None; }
    var data := RepairRows(lines);
    written := Some(Render(data));
  }

  /** A clean field is left as it is by the cleaning. */
  lemma CleanFieldFixed(f: string)
    requires CleanText(f)
    ensures CleanField(f) == f
  {
    AbsentNotContained(f, '"');
    ReplaceAbsent(f, "\"", "");
    StripStripped(f);
  }

  /** The pieces `RepairLine` works on for a written-out row are the
      row's fields. */
  lemma RenderedLineSplits(fields: seq<string>)
    requires |fields| == FieldCount && forall i | 0 <= i < FieldCount :: CleanText(fields[i])
    ensures Split(Strip(Join(fields, ',') + "\n"), ',') == fields
  {
    var line := Join(fields, ',');
    JoinCleanStripped(fields);
    StripLineEnd(line);
    SplitCleanJoin(fields);
  }

  lemma JoinCleanStripped(fields: seq<string>)
    requires |fields| == FieldCount && forall i | 0 <= i < FieldCount :: CleanText(fields[i])
    ensures Stripped(Join(fields, ','))
  {
    JoinStripped(fields, ',');
  }

  lemma SplitCleanJoin(fields: seq<string>)
    requires |fields| == FieldCount && forall i | 0 <= i < FieldCount :: CleanText(fields[i])
    ensures Split(Join(fields, ','), ',') == fields
  {
    SplitJoin(fields, ',');
  }

  /** Cleaning the padded row of the loop gives the fields of the line:
      the padding is already clean. */
  lemma PaddedRowCleaned(parts: seq<string>, row: seq<string>)
    requires forall j | 0 <= j < |parts| :: ',' !in parts[j]
    requires |row| == FieldCount
    requires forall i | 0 <= i < FieldCount :: row[i] == if i < |parts| then parts[i] else WaitingLabel
    ensures seq(FieldCount, i requires 0 <= i < FieldCount => CleanField(row[i])) == Fields(parts)
  {
    WaitingLabelClean();
    CleanFieldFixed(WaitingLabel);
    var cleaned := seq(FieldCount, i requires 0 <= i < FieldCount => CleanField(row[i]));
    forall i | 0 <= i < FieldCount ensures cleaned[i] == Fields(parts)[i] {
      assert Fields(parts)[i] == FieldAt(parts, i);
    }
  }

  /** Five clean fields are their own fields. */
  lemma FieldsOfClean(fields: seq<string>)
    requires |fields| == FieldCount && forall i | 0 <= i < FieldCount :: CleanText(fields[i])
    ensures (forall j | 0 <= j < |fields| :: ',' !in fields[j]) && Fields(fields) == fields
  {
    forall i | 0 <= i < FieldCount ensures FieldAt(fields, i) == fields[i] {
      CleanFieldFixed(fields[i]);
    }
  }

  /** A repaired row, written out and read back as a line, repairs to
      itself. */
  lemma RepairRowStable(fields: seq<string>)
    requires |fields| == FieldCount && forall i | 0 <= i < FieldCount :: CleanText(fields[i])
    ensures RepairLine(Join(fields, ',') + "\n") == fields
  {
    RenderedLineSplits(fields);
    FieldsOfClean(fields);
  }

  /** Repair is idempotent: repairing the file the repair wrote gives the
      same rows. */
  lemma {:induction false} RepairIdempotent(lines: seq<string>)
    ensures RepairedData(Render(RepairedData(lines))) == RepairedData(lines)
  {
    var data := RepairedData(lines);
    var again := RepairedData(Render(data));
    forall j | 0 <= j < |data| ensures again[j] == data[j] {
      assert DataLines(Render(data))[j] == Join(data[j], ',') + "\n";
      RepairRowStable(data[j]);
    }
  }

  /** A line without commas keeps its text as the sequence and gets
      `waiting_validation` in all four other fields. */
  lemma SingleFieldPadded(line: string)
    requires ',' !in line && '"' !in line && Stripped(line)
    ensures RepairLine(line) == [line, WaitingLabel, WaitingLabel, WaitingLabel, WaitingLabel]
  {
    OneFieldSplit(line);
    PaddedFields(line);
  }

  lemma PaddedFields(f: string)
    requires CleanText(f)
    ensures Fields([f]) == [f, WaitingLabel, WaitingLabel, WaitingLabel, WaitingLabel]
  {
    CleanFieldFixed(f);
  }

  lemma OneFieldSplit(line: string)
    requires ',' !in line && Stripped(line)
    ensures Split(Strip(line), ',') == [line]
  {
    StripStripped(line);
  }

  /** A cell as pandas reads the repaired file back: an empty field is
      missing. */
  function Cell(field: string): (cell: Option<string>)
    ensures cell.None? <==> field == ""
  {
    if field == "" then None else Some(field)
  }

  /** The table pandas reads from the repaired file: all five columns, the
      status parsed from the fifth field. */
  function ReadRepaired(data: seq<seq<string>>): (t: Table)
    requires forall j | 0 <= j < |data| :: |data[j]| == FieldCount
    ensures t.hasSequence && t.hasBatch && t.hasStatus && |t.rows| == |data|
    ensures forall j | 0 <= j < |data| :: t.rows[j].status == ParseStatus(Cell(data[j][4]))
  {
    Table(true, true, true, seq(|data|, j requires 0 <= j < |data| =>
      Row(Cell(data[j][0]), Cell(data[j][1]), Cell(data[j][2]), Cell(data[j][3]),
          ParseStatus(Cell(data[j][4])))))
  }
}
