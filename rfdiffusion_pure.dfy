/** scripts/run_01_rfdiffusion_pure.py: the target structure is rewritten
    as chain A with residues renumbered from 1 and cut after residue 120,
    and the RFdiffusion command line is built with the split contig list
    and the hotspot list. */
module RfdiffusionPure {
  import opened Wrappers
  import opened Text
  import opened Pdb

  /** Line 57: residues beyond this number end the rewrite. */
  const MaxResidues: nat := 120

  /** Line 58: `f"{line[:21]}A{n:4d}{line[26:]}"`. */
  function Relabel(line: string, n: nat): string {
    Slice(line, 0, 21) + "A" + PadLeft(NatToString(n), 4, ' ') + From(line, 26)
  }

  function Pow10(w: nat): nat {
    if w == 0 then 1 else 10 * Pow10(w - 1)
  }

  /** A number below 10^w has at most w digits. */
  lemma {:induction false} DigitCount(n: nat, w: nat)
    requires w >= 1 && n < Pow10(w)
    ensures |NatToString(n)| <= w
  {
    if n >= 10 {
      DigitCount(n / 10, w - 1);
    }
  }

  /** Leading blanks before a digit string are what `strip` removes. */
  lemma {:induction false} StripPadding(k: nat, digits: string)
    requires |digits| >= 1 && AllDigits(digits)
    ensures Strip(Repeat(' ', k) + digits) == digits
  {
    var s := Repeat(' ', k) + digits;
    PaddingCount(k, digits);
    assert s[LeadingSpaces(s)..] == digits;
    assert TrailingSpaces(digits) == 0 by {
      assert !IsSpace(digits[|digits| - 1]);
    }
    assert digits[..|digits| - 0] == digits;
  }

  lemma {:induction false} PaddingCount(k: nat, digits: string)
    requires |digits| >= 1 && AllDigits(digits)
    ensures LeadingSpaces(Repeat(' ', k) + digits) == k
  {
    if k == 0 {
      assert Repeat(' ', 0) + digits == digits;
      assert !IsSpace(digits[0]);
    } else {
      var s := Repeat(' ', k) + digits;
      assert s[1..] == Repeat(' ', k - 1) + digits;
      PaddingCount(k - 1, digits);
    }
  }

  /** The counter field reads back as the counter. */
  lemma PaddedNumberReadBack(n: nat)
    requires n < 10000
    ensures |PadLeft(NatToString(n), 4, ' ')| == 4
    ensures Strip(PadLeft(NatToString(n), 4, ' ')) == NatToString(n)
    ensures ParseNat(Strip(PadLeft(NatToString(n), 4, ' '))) == n
  {
    assert Pow10(4) == 10000;
    DigitCount(n, 4);
    var digits := NatToString(n);
    assert PadLeft(digits, 4, ' ') == Repeat(' ', 4 - |digits|) + digits;
    StripPadding(4 - |digits|, digits);
  }

  /** A rewritten line keeps every column but the chain identifier
      (column 22, set to `A`) and the residue number (columns 23-26, the
      right-aligned counter, read back as the counter); the insertion code
      and everything after it are preserved. */
  lemma RelabelColumns(line: string, n: nat)
    requires |line| >= 26 && n < 10000
    ensures var r := Relabel(line, n);
      && |r| == |line|
      && r[..21] == line[..21]
      && r[21] == 'A'
      && r[26..] == line[26..]
      && ResSeq(r) == PadLeft(NatToString(n), 4, ' ')
      && Strip(ResSeq(r)) == NatToString(n)
      && ParseNat(Strip(ResSeq(r))) == n
  {
    PaddedNumberReadBack(n);
    var field := PadLeft(NatToString(n), 4, ' ');
    RelabelShape(line, n);
    SplicedColumns(line[..21], field, line[26..]);
  }

  /** The three pieces a rewritten line is made of. */
  lemma RelabelShape(line: string, n: nat)
    requires |line| >= 26
    ensures Relabel(line, n) == line[..21] + "A" + PadLeft(NatToString(n), 4, ' ') + line[26..]
  {
    assert Slice(line, 0, 21) == line[..21];
    assert From(line, 26) == line[26..];
  }

  /** Where the pieces of a spliced line sit. */
  lemma SplicedColumns(head: string, field: string, tail: string)
    requires |head| == 21 && |field| == 4
    ensures var r := head + "A" + field + tail;
      && |r| == 26 + |tail|
      && r[..21] == head && r[21] == 'A' && r[26..] == tail
      && ResSeq(r) == field
  {
    var r := head + "A" + field + tail;
    assert r[..21] == head;
    assert r[26..] == tail;
    assert Slice(r, 22, 26) == r[22..26] == field;
  }

  /** A rewritten ATOM line is still an ATOM line. */
  lemma RelabelKeepsRecord(line: string, n: nat)
    requires IsAtom(line)
    ensures IsAtom(Relabel(line, n))
  {
    var r := Relabel(line, n);
    assert r[..4] == Slice(line, 0, 21)[..4] == line[..4];
  }

  /** The loop state of lines 48-58: the counter, the previous residue
      number as written, the lines written, and (for the proofs) the
      counter value and input index behind each written line; `stopped`
      once the `break` has been taken. */
  datatype Renumbering = Renumbering(
    count: nat, last: Option<string>, out: seq<string>,
    numbers: seq<nat>, sources: seq<nat>, stopped: bool)

  const Start := Renumbering(0, None, [], [], [], false)

  /** One input line at the given index. */
  function Step(st: Renumbering, line: string, index: nat): Renumbering {
    if st.stopped || !IsAtom(line) then st
    else
      var orig := ResSeq(line);
      var count := if st.last != Some(orig) then st.count + 1 else st.count;
      if count > MaxResidues then st.(count := count, last := Some(orig), stopped := true)
      else Renumbering(count, Some(orig), st.out + [Relabel(line, count)],
                       st.numbers + [count], st.sources + [index], false)
  }

  function Scan(lines: seq<string>): Renumbering
    decreases |lines|
  {
    if lines == [] then Start
    else Step(Scan(lines[..|lines| - 1]), lines[|lines| - 1], |lines| - 1)
  }

  /** The lines the rewrite writes. */
  function Renumbered(lines: seq<string>): seq<string> {
    Scan(lines).out
  }

  /** Once stopped, the rest of the file is not read. */
  lemma {:induction false} StoppedStays(lines: seq<string>, n: nat)
    requires n <= |lines| && Scan(lines[..n]).stopped
    ensures Scan(lines) == Scan(lines[..n])
    decreases |lines| - n
  {
    if n < |lines| {
      assert lines[..n + 1][..n] == lines[..n];
      StoppedStays(lines, n + 1);
    } else {
      assert lines[..n] == lines;
    }
  }

  /** The scan of one more line is one more step. */
  lemma ScanPrefixStep(lines: seq<string>, i: nat)
    requires i < |lines|
    ensures Scan(lines[..i + 1]) == Step(Scan(lines[..i]), lines[i], i)
  {
    assert lines[..i + 1][..i] == lines[..i];
  }

  /** Lines 48-58, the loop with its early `break`. */
  method RenumberLines(lines: seq<string>) returns (out: seq<string>)
    ensures out == Renumbered(lines)
  {
    var currentRes: nat := 0;
    var lastRes: Option<string> := None;
    out := [];
    ghost var numbers: seq<nat> := [];
    ghost var sources: seq<nat> := [];
    var i := 0;
    while i < |lines|
      invariant i <= |lines|
      invariant Scan(lines[..i]) == Renumbering(currentRes, lastRes, out, numbers, sources, false)
    {
      ScanPrefixStep(lines, i);
      var stop;
      currentRes, lastRes, out, numbers, sources, stop :=
        RenumberLine(currentRes, lastRes, out, numbers, sources, lines[i], i);
      if stop {
        StoppedStays(lines, i + 1);
        return;
      }
      i := i + 1;
    }
    assert lines[..i] == lines;
  }

  /** Lines 52-57 for one line of the file: the counter moves on a new
      residue number, and the line is written unless the counter passes
      120, which is the `break`. */
  method RenumberLine(currentRes: nat, lastRes: Option<string>, out: seq<string>,
                      ghost numbers: seq<nat>, ghost sources: seq<nat>, line: string, index: nat)
    returns (currentRes': nat, lastRes': Option<string>, out': seq<string>,
             ghost numbers': seq<nat>, ghost sources': seq<nat>, stop: bool)
    ensures Renumbering(currentRes', lastRes', out', numbers', sources', stop)
      == Step(Renumbering(currentRes, lastRes, out, numbers, sources, false), line, index)
  {
    currentRes', lastRes', out', numbers', sources', stop :=
      currentRes, lastRes, out, numbers, sources, false;
    if IsAtom(line) {
      var orig := ResSeq(line);
      if lastRes != Some(orig) {
        currentRes' := currentRes + 1;
        lastRes' := Some(orig);
      }
      if currentRes' > MaxResidues {
        stop := true;
        return;
      }
      out' := out + [Relabel(line, currentRes')];
      numbers', sources' := numbers + [currentRes'], sources + [index];
    }
  }

  /** What the scan of the first `n` lines keeps: each written line is the
      rewrite of an ATOM line, in input order, numbered from 1 to at most
      120; the number goes up by one exactly when the residue number as
      written differs from the previous written line's, and stays
      otherwise; every ATOM line before the cut is written, and the cut
      comes only once residue 120 has been written. */
  predicate WellNumbered(lines: seq<string>, n: nat, st: Renumbering)
    requires n <= |lines|
  {
    && |st.out| == |st.numbers| == |st.sources|
    && Written(lines, n, st)
    && Ordered(st.sources)
    && Consecutive(lines, st)
    && Complete(lines, n, st)
    && Tracked(lines, st)
  }

  predicate Written(lines: seq<string>, n: nat, st: Renumbering)
    requires n <= |lines| && |st.out| == |st.numbers| == |st.sources|
  {
    forall k | 0 <= k < |st.sources| ::
      && st.sources[k] < n
      && IsAtom(lines[st.sources[k]])
      && 1 <= st.numbers[k] <= MaxResidues
      && st.out[k] == Relabel(lines[st.sources[k]], st.numbers[k])
  }

  predicate Ordered(sources: seq<nat>) {
    forall k, l | 0 <= k < l < |sources| :: sources[k] < sources[l]
  }

  predicate Consecutive(lines: seq<string>, st: Renumbering)
    requires |st.numbers| == |st.sources|
    requires forall k | 0 <= k < |st.sources| :: st.sources[k] < |lines|
  {
    && (|st.numbers| > 0 ==> st.numbers[0] == 1)
    && (forall k | 0 < k < |st.numbers| ::
          st.numbers[k] == st.numbers[k - 1] +
            (if ResSeq(lines[st.sources[k]]) != ResSeq(lines[st.sources[k - 1]]) then 1 else 0))
  }

  /** An ATOM line among the first `n` that was not written is the line
      of the cut or one after it: every written line comes before it. */
  predicate Complete(lines: seq<string>, n: nat, st: Renumbering)
    requires n <= |lines|
  {
    forall i | 0 <= i < n && IsAtom(lines[i]) && i !in st.sources ::
      st.stopped && forall k | 0 <= k < |st.sources| :: st.sources[k] < i
  }

  predicate Tracked(lines: seq<string>, st: Renumbering)
    requires |st.numbers| == |st.sources|
    requires forall k | 0 <= k < |st.sources| :: st.sources[k] < |lines|
  {
    && (!st.stopped && st.numbers == [] ==> st.count == 0 && st.last == None)
    && (!st.stopped && st.numbers != [] ==>
          && st.count == st.numbers[|st.numbers| - 1]
          && st.last == Some(ResSeq(lines[st.sources[|st.sources| - 1]])))
    && (st.stopped ==> st.numbers != [] && st.numbers[|st.numbers| - 1] == MaxResidues)
  }

  lemma StepWellNumbered(lines: seq<string>, n: nat, st: Renumbering)
    requires n < |lines| && WellNumbered(lines, n, st)
    ensures WellNumbered(lines, n + 1, Step(st, lines[n], n))
  {
    var line := lines[n];
    var next := Step(st, line, n);
    if st.stopped || !IsAtom(line) {
      SkippedWellNumbered(lines, n, st);
    } else {
      var orig := ResSeq(line);
      var count := if st.last != Some(orig) then st.count + 1 else st.count;
      if count > MaxResidues {
        CutWellNumbered(lines, n, st, next);
      } else {
        AppendedWellNumbered(lines, n, st, next);
      }
    }
  }

  /** An ATOM line written with the counter `next.count`. */
  lemma AppendedWellNumbered(lines: seq<string>, n: nat, st: Renumbering, next: Renumbering)
    requires n < |lines| && WellNumbered(lines, n, st) && !st.stopped && IsAtom(lines[n])
    requires next.count == (if st.last != Some(ResSeq(lines[n])) then st.count + 1 else st.count)
    requires next.count <= MaxResidues && !next.stopped && next.last == Some(ResSeq(lines[n]))
    requires next.sources == st.sources + [n] && next.numbers == st.numbers + [next.count]
    requires next.out == st.out + [Relabel(lines[n], next.count)]
    ensures WellNumbered(lines, n + 1, next)
  {
    AppendedWritten(lines, n, st, next);
    AppendedOrdered(st.sources, n);
    AppendedConsecutive(lines, n, st, next);
    AppendedComplete(lines, n, st, next);
  }

  /** A line read after the cut, or a line that is not an ATOM line. */
  lemma SkippedWellNumbered(lines: seq<string>, n: nat, st: Renumbering)
    requires n < |lines| && WellNumbered(lines, n, st) && (st.stopped || !IsAtom(lines[n]))
    ensures WellNumbered(lines, n + 1, st)
  {
    assert Written(lines, n + 1, st);
    SkippedComplete(lines, n, st);
  }

  lemma SkippedComplete(lines: seq<string>, n: nat, st: Renumbering)
    requires n < |lines| && |st.out| == |st.numbers| == |st.sources|
    requires Written(lines, n, st) && Complete(lines, n, st)
    requires st.stopped || !IsAtom(lines[n])
    ensures Complete(lines, n + 1, st)
  {
    forall i | 0 <= i < n + 1 && IsAtom(lines[i]) && i !in st.sources
      ensures st.stopped && forall k | 0 <= k < |st.sources| :: st.sources[k] < i
    {
      if i < n {
        assert IsAtom(lines[i]) && i !in st.sources;
      }
    }
  }

  /** The first atom of residue 121. */
  lemma CutWellNumbered(lines: seq<string>, n: nat, st: Renumbering, next: Renumbering)
    requires n < |lines| && WellNumbered(lines, n, st) && !st.stopped && IsAtom(lines[n])
    requires (if st.last != Some(ResSeq(lines[n])) then st.count + 1 else st.count) > MaxResidues
    requires next.out == st.out && next.numbers == st.numbers && next.sources == st.sources
    requires next.stopped
    ensures WellNumbered(lines, n + 1, next)
  {
    assert Written(lines, n + 1, next);
    assert Consecutive(lines, next) by {
      assert Consecutive(lines, st);
    }
    CutTracked(lines, n, st, next);
    CutComplete(lines, n, st, next);
  }

  /** The cut is taken only when the counter would pass 120, so the last
      line written carries 120. */
  lemma CutTracked(lines: seq<string>, n: nat, st: Renumbering, next: Renumbering)
    requires n < |lines| && WellNumbered(lines, n, st) && !st.stopped
    requires (if st.last != Some(ResSeq(lines[n])) then st.count + 1 else st.count) > MaxResidues
    requires next.numbers == st.numbers && next.sources == st.sources && next.stopped
    ensures Tracked(lines, next)
  {
    assert Tracked(lines, st);
    if st.numbers != [] {
      var m := |st.numbers| - 1;
      assert st.count == st.numbers[m];
      assert st.numbers[m] <= MaxResidues by {
        assert Written(lines, n, st);
      }
    }
  }

  lemma CutComplete(lines: seq<string>, n: nat, st: Renumbering, next: Renumbering)
    requires n < |lines| && WellNumbered(lines, n, st) && !st.stopped
    requires next.sources == st.sources && next.stopped
    ensures Complete(lines, n + 1, next)
  {
    forall i | 0 <= i < n + 1 && IsAtom(lines[i]) && i !in next.sources
      ensures next.stopped && forall k | 0 <= k < |next.sources| :: next.sources[k] < i
    {
      if i < n {
        assert false;
      }
      assert Written(lines, n, st);
    }
  }

  lemma AppendedWritten(lines: seq<string>, n: nat, st: Renumbering, next: Renumbering)
    requires n < |lines| && |st.out| == |st.numbers| == |st.sources|
    requires Written(lines, n, st) && IsAtom(lines[n]) && 1 <= next.count <= MaxResidues
    requires next.sources == st.sources + [n] && next.numbers == st.numbers + [next.count]
    requires next.out == st.out + [Relabel(lines[n], next.count)]
    ensures Written(lines, n + 1, next)
  {
  }

  lemma AppendedOrdered(sources: seq<nat>, n: nat)
    requires Ordered(sources) && forall k | 0 <= k < |sources| :: sources[k] < n
    ensures Ordered(sources + [n])
  {
  }

  lemma AppendedConsecutive(lines: seq<string>, n: nat, st: Renumbering, next: Renumbering)
    requires n < |lines| && |st.numbers| == |st.sources|
    requires forall k | 0 <= k < |st.sources| :: st.sources[k] < n
    requires Consecutive(lines, st) && Tracked(lines, st) && !st.stopped
    requires next.count == (if st.last != Some(ResSeq(lines[n])) then st.count + 1 else st.count)
    requires next.sources == st.sources + [n] && next.numbers == st.numbers + [next.count]
    ensures Consecutive(lines, next)
  {
    var m := |st.numbers|;
    if m > 0 {
      assert next.numbers[m] == next.numbers[m - 1] +
        (if ResSeq(lines[next.sources[m]]) != ResSeq(lines[next.sources[m - 1]]) then 1 else 0);
    }
  }

  lemma AppendedComplete(lines: seq<string>, n: nat, st: Renumbering, next: Renumbering)
    requires n < |lines| && Complete(lines, n, st) && !st.stopped && !next.stopped
    requires next.sources == st.sources + [n]
    ensures Complete(lines, n + 1, next)
  {
    forall i | 0 <= i < n + 1 && IsAtom(lines[i])
      ensures i in next.sources
    {
      if i < n {
        if i !in st.sources {
          assert false;
        }
      } else {
        assert next.sources[|st.sources|] == i;
      }
    }
  }

  lemma {:induction false} ScanWellNumbered(lines: seq<string>, n: nat)
    requires n <= |lines|
    ensures WellNumbered(lines, n, Scan(lines[..n]))
  {
    if n > 0 {
      assert lines[..n][..n - 1] == lines[..n - 1];
      ScanWellNumbered(lines, n - 1);
      StepWellNumbered(lines, n - 1, Scan(lines[..n - 1]));
    }
  }

  /** The properties of the rewrite over the whole file. */
  lemma RenumberedWell(lines: seq<string>)
    ensures WellNumbered(lines, |lines|, Scan(lines))
  {
    ScanWellNumbered(lines, |lines|);
    assert lines[..|lines|] == lines;
  }

  /** The `break` of line 56 over the whole file: it is taken only after
      residue 120 has been written, and the ATOM lines left unwritten are
      exactly those from the cut on, so every written line comes before
      each of them. */
  lemma CutAt121(lines: seq<string>)
    ensures var st := Scan(lines);
      st.stopped ==> |st.numbers| > 0 && st.numbers[|st.numbers| - 1] == MaxResidues
    ensures var st := Scan(lines);
      forall i | 0 <= i < |lines| && IsAtom(lines[i]) && i !in st.sources ::
        st.stopped && forall k | 0 <= k < |st.sources| :: st.sources[k] < i
  {
    RenumberedWell(lines);
    var st := Scan(lines);
    assert Tracked(lines, st);
    assert Complete(lines, |lines|, st);
  }

  /** The `break` falls on the first line of a new residue: there is an
      ATOM line `c` before which every ATOM line is written, after which
      none is, and whose residue number as written differs from that of
      the last line written. */
  lemma CutOnNewResidue(lines: seq<string>)
    requires Scan(lines).stopped
    ensures var st := Scan(lines);
      exists c | 0 <= c < |lines| ::
        && IsAtom(lines[c]) && c !in st.sources
        && (forall k | 0 <= k < |st.sources| :: st.sources[k] < c)
        && (forall i | 0 <= i < c && IsAtom(lines[i]) :: i in st.sources)
        && |st.sources| > 0
        && ResSeq(lines[c]) != ResSeq(lines[st.sources[|st.sources| - 1]])
  {
    var c := CutIndex(lines);
    var before := Scan(lines[..c]);
    ScanPrefixStep(lines, c);
    StoppedStays(lines, c + 1);
    ScanWellNumbered(lines, c);
    CutStep(lines, c, before);
    var st := Scan(lines);
    assert st.sources == before.sources by {
      assert st == Step(before, lines[c], c);
    }
    var last := st.sources[|st.sources| - 1];
    assert IsAtom(lines[c]) && c !in st.sources && ResSeq(lines[c]) != ResSeq(lines[last]);
  }

  /** The line whose step stops the scan. */
  lemma {:induction false} CutIndex(lines: seq<string>) returns (c: nat)
    requires Scan(lines).stopped
    ensures c < |lines| && !Scan(lines[..c]).stopped && Scan(lines[..c + 1]).stopped
    decreases |lines|
  {
    var n := |lines| - 1;
    assert lines[..n + 1] == lines;
    if Scan(lines[..n]).stopped {
      c := CutIndex(lines[..n]);
      assert lines[..n][..c] == lines[..c];
      assert lines[..n][..c + 1] == lines[..c + 1];
    } else {
      c := n;
    }
  }

  /** At the stopping step: the line is an ATOM line of a residue other
      than the last one written, and the scan so far had written every
      ATOM line before it. */
  lemma CutStep(lines: seq<string>, c: nat, before: Renumbering)
    requires c < |lines| && WellNumbered(lines, c, before) && !before.stopped
    requires Step(before, lines[c], c).stopped
    ensures IsAtom(lines[c]) && c !in before.sources
    ensures forall k | 0 <= k < |before.sources| :: before.sources[k] < c
    ensures forall i | 0 <= i < c && IsAtom(lines[i]) :: i in before.sources
    ensures |before.sources| > 0
    ensures ResSeq(lines[c]) != ResSeq(lines[before.sources[|before.sources| - 1]])
  {
    assert Written(lines, c, before);
    assert Tracked(lines, before);
    assert Complete(lines, c, before);
    if before.numbers != [] {
      var m := |before.numbers| - 1;
      assert before.numbers[m] <= MaxResidues;
    }
  }

  /** Only ATOM lines are written, at most one per input line. */
  lemma OnlyAtomsWritten(lines: seq<string>)
    ensures |Renumbered(lines)| <= |lines|
    ensures forall k | 0 <= k < |Renumbered(lines)| :: IsAtom(Renumbered(lines)[k])
  {
    RenumberedWell(lines);
    var st := Scan(lines);
    forall k | 0 <= k < |st.out| ensures IsAtom(st.out[k]) {
      RelabelKeepsRecord(lines[st.sources[k]], st.numbers[k]);
    }
    SourcesBound(st.sources, |lines|);
  }

  /** Strictly increasing indices below `n` are at most `n` many. */
  lemma {:induction false} SourcesBound(sources: seq<nat>, n: nat)
    requires forall k | 0 <= k < |sources| :: sources[k] < n
    requires forall k, l | 0 <= k < l < |sources| :: sources[k] < sources[l]
    ensures |sources| <= n
    decreases n
  {
    if sources != [] {
      var m := |sources| - 1;
      SourcesBound(sources[..m], sources[m]);
    }
  }

  /** Python's `str` of a list of strings without quote characters:
      each item in single quotes, separated by a comma and a space. */
  function ListRepr(items: seq<string>): string {
    "[" + Items(items, ", ") + "]"
  }

  function Items(items: seq<string>, sep: string): string {
    if items == [] then ""
    else if |items| == 1 then Quoted(items[0])
    else Quoted(items[0]) + sep + Items(items[1..], sep)
  }

  function Quoted(item: string): string {
    "'" + item + "'"
  }

  /** Line 69: `str(hotspots).replace(" ", "").replace('"', "'")`. */
  function HotspotArg(hotspots: seq<string>): string {
    ReplaceAll(ReplaceAll(ListRepr(hotspots), " ", ""), "\"", "'")
  }

  /** For items without blanks or double quotes the argument is the list
      written with commas only. */
  lemma HotspotArgCompact(hotspots: seq<string>)
    requires forall k | 0 <= k < |hotspots| :: ' ' !in hotspots[k] && '"' !in hotspots[k]
    ensures HotspotArg(hotspots) == "[" + Items(hotspots, ",") + "]"
  {
    var compact := "[" + Items(hotspots, ",") + "]";
    ItemsWithoutBlanks(hotspots);
    ReplaceCharConcat("[" + Items(hotspots, ", "), "]", ' ', "");
    ReplaceCharConcat("[", Items(hotspots, ", "), ' ', "");
    ReplaceAbsent("[", " ", "");
    ReplaceAbsent("]", " ", "");
    QuoteAbsent(hotspots);
    AbsentNotContained(compact, '"');
    ReplaceAbsent(compact, "\"", "'");
  }

  lemma {:induction false} ItemsWithoutBlanks(items: seq<string>)
    requires forall k | 0 <= k < |items| :: ' ' !in items[k]
    ensures ReplaceAll(Items(items, ", "), " ", "") == Items(items, ",")
  {
    if items != [] {
      var q := Quoted(items[0]);
      AbsentNotContained(q, ' ');
      ReplaceAbsent(q, " ", "");
      if |items| > 1 {
        ItemsWithoutBlanks(items[1..]);
        var rest := Items(items[1..], ", ");
        assert Items(items, ", ") == q + ", " + rest;
        CommaSpaceDropped(q, rest);
      }
    }
  }

  /** Dropping blanks from `a, b` leaves `a` and `b` without blanks, joined by a bare comma. */
  lemma CommaSpaceDropped(a: string, b: string)
    ensures ReplaceAll(a + ", " + b, " ", "") == ReplaceAll(a, " ", "") + "," + ReplaceAll(b, " ", "")
  {
    var u := " " + b;
    var t := [','] + u;
    assert a + ", " + b == a + t;
    ReplaceCharConcat(a, t, ' ', "");
    assert ReplaceAll(t, " ", "") == "," + ReplaceAll(u, " ", "") by {
      assert t[1..] == u;
      ReplaceAtMiss(t, " ", "");
    }
    assert ReplaceAll(u, " ", "") == ReplaceAll(b, " ", "") by {
      assert u[1..] == b;
      ReplaceAtMatch(u, " ", "");
    }
  }

  lemma {:induction false} QuoteAbsent(items: seq<string>)
    requires forall k | 0 <= k < |items| :: '"' !in items[k]
    ensures '"' !in "[" + Items(items, ",") + "]"
  {
    if |items| > 1 {
      QuoteAbsent(items[1..]);
    }
  }

  /** Line 68: the hotspot residues. */
  const Hotspots: seq<string> := ["A35", "A90"]

  /** Line 76: the target segment with a chain break, then a binder of
      exactly 70 residues, as a list of two contigs. */
  const ContigArg: string := "['A1-120/0','70-70']"

  /** The hotspot argument of line 69 is the list of line 68 written
      with commas only. */
  lemma HotspotArgValue()
    ensures HotspotArg(Hotspots) == "['A35','A90']"
  {
    HotspotArgCompact(Hotspots);
    HotspotsWritten();
  }

  lemma HotspotsWritten()
    ensures "[" + Items(Hotspots, ",") + "]" == "['A35','A90']"
  {
  }

  /** Lines 78-90: the RFdiffusion command for the given directories and
      hotspot argument. */
  function Command(rfdiffusionDir: string, outputDir: string, finalPdb: string,
                   hotspotArg: string): seq<string> {
    [ "python3", rfdiffusionDir + "/scripts/run_inference.py",
      "inference.output_prefix=" + outputDir + "/design",
      "inference.input_pdb=" + finalPdb,
      "inference.num_designs=5",
      "inference.deterministic=True",
      "diffuser.T=50",
      "inference.ckpt_override_path=" + rfdiffusionDir + "/models/Base_ckpt.pt",
      "contigmap.contigs=" + ContigArg,
      "ppi.hotspot_res=" + hotspotArg ]
  }

  /** The command asks for five designs of 50 diffusion steps against the
      fixed target, with the split contig list and the hotspots last. */
  lemma CommandArguments(rfdiffusionDir: string, outputDir: string, finalPdb: string,
                         hotspotArg: string)
    ensures var cmd := Command(rfdiffusionDir, outputDir, finalPdb, hotspotArg);
      && |cmd| == 10
      && cmd[3] == "inference.input_pdb=" + finalPdb
      && cmd[4] == "inference.num_designs=5" && cmd[6] == "diffuser.T=50"
      && cmd[8] == "contigmap.contigs=" + ContigArg
      && cmd[9] == "ppi.hotspot_res=" + hotspotArg
  {
  }

  /** What step 1 of the script does with the target structure. */
  datatype Preparation =
    | Reused                         // the fixed file already exists
    | DownloadFailed                 // exit status 1, nothing else happens
    | Rewritten(lines: seq<string>)  // the lines written to the fixed file

  /** The script: `present` tells whether the fixed file is present, and
      `download` gives the lines of the AlphaFold model, or `None` for any
      failure of the lookup or the download. The command is run only when
      the target is ready. */
  method Run(present: bool, download: Option<seq<string>>,
             rfdiffusionDir: string, outputDir: string, finalPdb: string)
    returns (prepared: Preparation, cmd: Option<seq<string>>)
    ensures present ==> prepared == Reused
    ensures !present && download.None? ==> prepared == DownloadFailed
    ensures !present && download.Some? ==> prepared == Rewritten(Renumbered(download.value))
    ensures cmd.None? <==> prepared == DownloadFailed
    ensures cmd.Some? ==> cmd.value == Command(rfdiffusionDir, outputDir, finalPdb, HotspotArg(Hotspots))
  {
    if !present {
      if download.None? {
        return DownloadFailed, None;
      }
      var out := RenumberLines(download.value);
      prepared := Rewritten(out);
    } else {
      prepared := Reused;
    }
    var hotspotArg := HotspotArg(Hotspots);
    cmd := Some(Command(rfdiffusionDir, outputDir, finalPdb, hotspotArg));
  }
}
