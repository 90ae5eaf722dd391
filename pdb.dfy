/** Lines of atomic-coordinate text in the wwPDB Atomic Coordinate Entry
    Format (version 3.3, section 9, the ATOM record): the record name in
    columns 1-6, the residue name in columns 18-20, the chain identifier in
    column 22 and the residue sequence number in columns 23-26. Columns are
    1-based there and 0-based slices here. Also the ATOM-only filter both
    NVIDIA scripts apply to a downloaded structure. */
module Pdb {
  import opened Text

  predicate IsAtom(line: string) {
    StartsWith(line, "ATOM")
  }

  /** `line[17:20].strip()`: the residue name. */
  function ResName(line: string): string {
    Strip(Slice(line, 17, 20))
  }

  /** `line[22:26]`: the residue sequence number as written. */
  function ResSeq(line: string): string {
    Slice(line, 22, 26)
  }

  /** The ATOM lines, in order. */
  function AtomLines(lines: seq<string>): (atoms: seq<string>)
    ensures |atoms| <= |lines|
  {
    if lines == [] then []
    else
      var n := |lines| - 1;
      AtomLines(lines[..n]) + if IsAtom(lines[n]) then [lines[n]] else []
  }

  /** Every kept line is an ATOM line of the input, and every ATOM line of
      the input is kept. */
  lemma {:induction false} AtomLinesMembers(lines: seq<string>)
    ensures forall k | 0 <= k < |AtomLines(lines)| ::
      IsAtom(AtomLines(lines)[k]) && AtomLines(lines)[k] in lines
    ensures forall i | 0 <= i < |lines| && IsAtom(lines[i]) :: lines[i] in AtomLines(lines)
  {
    if lines != [] {
      var n := |lines| - 1;
      AtomLinesMembers(lines[..n]);
      assert forall i | 0 <= i < n :: lines[..n][i] == lines[i];
    }
  }

  /** Lines that are all ATOM lines pass the filter unchanged. */
  lemma {:induction false} AtomLinesOfAtoms(lines: seq<string>)
    requires forall i | 0 <= i < |lines| :: IsAtom(lines[i])
    ensures AtomLines(lines) == lines
  {
    if lines != [] {
      AtomLinesOfAtoms(lines[..|lines| - 1]);
    }
  }

  /** `"\n".join([l for l in text.split('\n') if l.startswith("ATOM")])`
      (run_01_nvidia_api.py lines 63-65, the skeleton's lines 39-41). */
  function AtomOnly(text: string): string {
    Join(AtomLines(Split(text, '\n')), '\n')
  }

  /** The cleaned text splits back into exactly the ATOM lines of the
      input, and ends without a line terminator. */
  lemma AtomOnlyLines(text: string)
    requires AtomLines(Split(text, '\n')) != []
    ensures Split(AtomOnly(text), '\n') == AtomLines(Split(text, '\n'))
    ensures |AtomOnly(text)| > 0 && AtomOnly(text)[|AtomOnly(text)| - 1] != '\n'
  {
    var lines := Split(text, '\n');
    var atoms := AtomLines(lines);
    SplitPieces(text, '\n');
    AtomLinesMembers(lines);
    SplitJoin(atoms, '\n');
    JoinEndsWithLast(atoms, '\n');
    var last := atoms[|atoms| - 1];
    assert IsAtom(last);
    assert last[|last| - 1] != '\n';
  }

  /** A join ends with its last part when that part is not empty. */
  lemma {:induction false} JoinEndsWithLast(parts: seq<string>, sep: char)
    requires parts != [] && parts[|parts| - 1] != []
    ensures |Join(parts, sep)| > 0
    ensures Join(parts, sep)[|Join(parts, sep)| - 1] == parts[|parts| - 1][|parts[|parts| - 1]| - 1]
  {
    if |parts| > 1 {
      assert parts[1..][|parts[1..]| - 1] == parts[|parts| - 1];
      JoinEndsWithLast(parts[1..], sep);
      var rest := Join(parts[1..], sep);
      var r := parts[0] + [sep] + rest;
      assert Join(parts, sep) == r;
      assert r[|r| - 1] == rest[|rest| - 1];
    }
  }

  /** Cleaning cleaned text changes nothing. */
  lemma AtomOnlyIdempotent(text: string)
    ensures AtomOnly(AtomOnly(text)) == AtomOnly(text)
  {
    var atoms := AtomLines(Split(text, '\n'));
    if atoms == [] {
      assert AtomOnly(text) == [];
      assert Split([], '\n') == [[]];
      assert !IsAtom([]);
      assert AtomLines([[]]) == [];
    } else {
      AtomOnlyLines(text);
      AtomLinesMembers(Split(text, '\n'));
      AtomLinesOfAtoms(atoms);
    }
  }
}
