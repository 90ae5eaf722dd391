/** The few Python `str` operations the scripts rely on, over `seq<char>`:
    `strip`, `startswith`, `split` and `join` on one character, slicing with
    clamped bounds, `replace`, and the decimal and padded renderings that
    f-strings such as `{i}`, `{i:02d}` and `{n:4d}` produce. */
module Text {

  /** Python's `str.isspace` restricted to ASCII. */
  predicate IsSpace(c: char) {
    c == ' ' || c == '\t' || c == '\n' || c == '\r' || c == '\U{B}' || c == '\U{C}'
    || ('\U{1C}' <= c <= '\U{1F}')
  }

  predicate AllSpace(s: string) {
    forall i | 0 <= i < |s| :: IsSpace(s[i])
  }

  /** Neither end of `s` is whitespace: what `strip` leaves behind. */
  predicate Stripped(s: string) {
    s == [] || (!IsSpace(s[0]) && !IsSpace(s[|s| - 1]))
  }

  /** The number of whitespace characters `s` starts with. */
  function LeadingSpaces(s: string): (n: nat)
    ensures n <= |s|
    ensures forall i | 0 <= i < n :: IsSpace(s[i])
    ensures n < |s| ==> !IsSpace(s[n])
  {
    if s != [] && IsSpace(s[0]) then 1 + LeadingSpaces(s[1..]) else 0
  }

  /** The number of whitespace characters `s` ends with. */
  function TrailingSpaces(s: string): (n: nat)
    ensures n <= |s|
    ensures forall i | |s| - n <= i < |s| :: IsSpace(s[i])
    ensures n < |s| ==> !IsSpace(s[|s| - n - 1])
  {
    if s != [] && IsSpace(s[|s| - 1]) then 1 + TrailingSpaces(s[..|s| - 1]) else 0
  }

  /** Python's `s.strip()`: `s` without its leading and trailing
      whitespace. */
  function Strip(s: string): (r: string)
    ensures Stripped(r)
  {
    var t := s[LeadingSpaces(s)..];
    t[..|t| - TrailingSpaces(t)]
  }

  /** What `strip` keeps is a slice of its input, all of whose
      surroundings are whitespace. */
  lemma StripIsSlice(s: string)
    ensures exists a, b | 0 <= a <= b <= |s| ::
      Strip(s) == s[a..b] && AllSpace(s[..a]) && AllSpace(s[b..])
  {
    var a := LeadingSpaces(s);
    var t := s[a..];
    var b := a + |t| - TrailingSpaces(t);
    assert Strip(s) == s[a..b];
    assert forall i | 0 <= i < |s[b..]| :: s[b..][i] == t[|t| - TrailingSpaces(t) + i];
  }

  /** A line terminator after stripped text is all that `strip` removes. */
  lemma StripAppendSpace(s: string, c: char)
    requires Stripped(s) && IsSpace(c)
    ensures Strip(s + [c]) == s
  {
    var t := s + [c];
    if s == [] {
      assert t[1..] == [];
    } else {
      assert LeadingSpaces(t) == 0;
      assert t[..|t| - 1] == s;
      assert TrailingSpaces(s) == 0;
      assert TrailingSpaces(t) == 1;
    }
  }

  /** Stripping a line that ends in a newline gives its stripped text. */
  lemma StripLineEnd(s: string)
    requires Stripped(s)
    ensures Strip(s + "\n") == s
  {
    StripAppendSpace(s, '\n');
  }

  /** Stripping text that is already stripped changes nothing. */
  lemma StripStripped(s: string)
    requires Stripped(s)
    ensures Strip(s) == s
  {
    assert LeadingSpaces(s) == 0 && TrailingSpaces(s) == 0;
  }

  predicate StartsWith(s: string, prefix: string) {
    |prefix| <= |s| && s[..|prefix|] == prefix
  }

  function Min(a: int, b: int): int { if a <= b then a else b }

  /** Python's `s[lo:hi]` for non-negative bounds: out-of-range bounds are
      clamped rather than rejected. */
  function Slice(s: string, lo: nat, hi: nat): (r: string)
    ensures |r| == if lo >= |s| || hi <= lo then 0 else Min(hi, |s|) - lo
    ensures forall i | 0 <= i < |r| :: r[i] == s[lo + i]
  {
    if lo >= |s| || hi <= lo then [] else s[lo..Min(hi, |s|)]
  }

  /** Python's `s[lo:]`. */
  function From(s: string, lo: nat): (r: string)
    ensures r == Slice(s, lo, |s|)
  {
    if lo >= |s| then [] else s[lo..]
  }

  /** Index of the first occurrence of `c`. */
  function IndexOf(s: string, c: char): (k: nat)
    requires c in s
    ensures k < |s| && s[k] == c && c !in s[..k]
  {
    if s[0] == c then 0
    else
      assert s == [s[0]] + s[1..];
      var k := 1 + IndexOf(s[1..], c);
      assert s[..k] == [s[0]] + s[1..][..k - 1];
      k
  }

  /** Python's `sep.join(parts)` for a one-character separator. */
  function Join(parts: seq<string>, sep: char): (r: string)
    ensures |parts| == 1 ==> r == parts[0]
  {
    if |parts| == 0 then []
    else if |parts| == 1 then parts[0]
    else parts[0] + [sep] + Join(parts[1..], sep)
  }

  /** Joining stripped pieces with a separator that is not whitespace
      gives stripped text. */
  lemma {:induction false} JoinStripped(parts: seq<string>, sep: char)
    requires !IsSpace(sep)
    requires forall i | 0 <= i < |parts| :: Stripped(parts[i])
    ensures Stripped(Join(parts, sep))
  {
    if |parts| > 1 {
      var rest := Join(parts[1..], sep);
      JoinStripped(parts[1..], sep);
      var r := parts[0] + [sep] + rest;
      assert r[0] == if parts[0] == [] then sep else parts[0][0];
      assert r[|r| - 1] == if rest == [] then sep else rest[|rest| - 1];
    }
  }

  /** Python's `s.split(sep)` for a one-character separator. */
  function Split(s: string, sep: char): (r: seq<string>)
    ensures |r| >= 1
    decreases |s|
  {
    if sep !in s then [s]
    else
      var k := IndexOf(s, sep);
      [s[..k]] + Split(s[k + 1..], sep)
  }

  /** No piece contains the separator, and joining the pieces with the
      separator gives the text back; there is more than one piece exactly
      when the separator occurs. */
  lemma {:induction false} SplitPieces(s: string, sep: char)
    ensures forall i | 0 <= i < |Split(s, sep)| :: sep !in Split(s, sep)[i]
    ensures Join(Split(s, sep), sep) == s
    ensures |Split(s, sep)| == 1 <==> sep !in s
    decreases |s|
  {
    if sep in s {
      var k := IndexOf(s, sep);
      var rest := Split(s[k + 1..], sep);
      SplitPieces(s[k + 1..], sep);
      var r := Split(s, sep);
      assert r == [s[..k]] + rest;
      assert r[1..] == rest;
      assert s == s[..k] + [sep] + s[k + 1..];
    }
  }

  /** Splitting the join of separator-free pieces gives the pieces back. */
  lemma {:induction false} SplitJoin(parts: seq<string>, sep: char)
    requires |parts| >= 1
    requires forall i | 0 <= i < |parts| :: sep !in parts[i]
    ensures Split(Join(parts, sep), sep) == parts
  {
    if |parts| > 1 {
      var tail := parts[1..];
      forall i | 0 <= i < |tail| ensures sep !in tail[i] {
        assert tail[i] == parts[i + 1];
      }
      SplitJoin(tail, sep);
      SplitAfterPiece(parts[0], sep, Join(tail, sep));
      assert parts == [parts[0]] + tail;
    }
  }

  /** A separator-free piece followed by the separator splits off first. */
  lemma SplitAfterPiece(p: string, sep: char, rest: string)
    requires sep !in p
    ensures Split(p + [sep] + rest, sep) == [p] + Split(rest, sep)
  {
    var s := p + [sep] + rest;
    assert s[..|p|] == p;
    assert s[|p|] == sep;
    assert s[|p| + 1..] == rest;
  }

  predicate IsDigit(c: char) { '0' <= c <= '9' }

  predicate AllDigits(s: string) {
    forall i | 0 <= i < |s| :: IsDigit(s[i])
  }

  function Digit(d: nat): (c: char)
    requires d < 10
    ensures IsDigit(c)
  {
    (48 + d) as char
  }

  function DigitValue(c: char): (d: nat)
    requires IsDigit(c)
    ensures d < 10 && Digit(d) == c
  {
    c as int - 48
  }

  /** Reads a non-empty string of decimal digits. */
  function ParseNat(s: string): nat
    requires |s| >= 1 && AllDigits(s)
    decreases |s|
  {
    if |s| == 1 then DigitValue(s[0])
    else 10 * ParseNat(s[..|s| - 1]) + DigitValue(s[|s| - 1])
  }

  /** Python's `str(n)` for a natural number: decimal digits without a
      leading zero, read back by `ParseNat`. */
  function NatToString(n: nat): (r: string)
    ensures |r| >= 1 && AllDigits(r)
    ensures |r| > 1 ==> r[0] != '0'
    ensures ParseNat(r) == n
    decreases n
  {
    if n < 10 then [Digit(n)]
    else
      var front := NatToString(n / 10);
      var r := front + [Digit(n % 10)];
      assert r[..|r| - 1] == front;
      r
  }

  /** Different numbers render differently. */
  lemma NatToStringInjective(a: nat, b: nat)
    requires NatToString(a) == NatToString(b)
    ensures a == b
  {
    assert ParseNat(NatToString(a)) == a;
  }

  /** A fixed text followed by a number determines the number. */
  lemma PrefixedNumberInjective(prefix: string, a: nat, b: nat)
    requires prefix + NatToString(a) == prefix + NatToString(b)
    ensures a == b
  {
    var x, y := prefix + NatToString(a), prefix + NatToString(b);
    assert NatToString(a) == x[|prefix|..] == y[|prefix|..] == NatToString(b);
    NatToStringInjective(a, b);
  }

  /** `prefix1`, `prefix2`, ..., `prefixn`: ids numbered from one. */
  function NumberedIds(prefix: string, n: nat): (ids: seq<string>)
    ensures |ids| == n
  {
    seq(n, i requires 0 <= i < n => prefix + NatToString(i + 1))
  }

  /** Id `i` carries the number `i + 1`, and the ids are pairwise
      distinct. */
  lemma NumberedIdsDistinct(prefix: string, n: nat)
    ensures forall i | 0 <= i < n :: NumberedIds(prefix, n)[i] == prefix + NatToString(i + 1)
    ensures forall i, j | 0 <= i < j < n :: NumberedIds(prefix, n)[i] != NumberedIds(prefix, n)[j]
  {
    var ids := NumberedIds(prefix, n);
    forall i, j | 0 <= i < j < n ensures ids[i] != ids[j] {
      if ids[i] == ids[j] {
        assert prefix + NatToString(i + 1) == prefix + NatToString(j + 1);
        PrefixedNumberInjective(prefix, i + 1, j + 1);
      }
    }
  }

  /** A digit string followed by a non-digit separator differs from any
      longer digit string followed by the same separator. */
  lemma ShorterDigitsDiffer(d1: string, d2: string, c: char, x: string, y: string)
    requires AllDigits(d2) && !IsDigit(c) && |d1| < |d2|
    ensures d1 + [c] + x != d2 + [c] + y
  {
    var s := d1 + [c] + x;
    var u := d2 + [c] + y;
    assert s[|d1|] == c;
    assert u[|d1|] == d2[|d1|];
  }

  /** Two digit strings each followed by the same non-digit separator
      give the same text only when they are equal. */
  lemma DigitsBeforeSeparator(d1: string, d2: string, c: char, x: string, y: string)
    requires AllDigits(d1) && AllDigits(d2) && !IsDigit(c)
    requires d1 + [c] + x == d2 + [c] + y
    ensures d1 == d2
  {
    if |d1| < |d2| {
      ShorterDigitsDiffer(d1, d2, c, x, y);
    } else if |d2| < |d1| {
      ShorterDigitsDiffer(d2, d1, c, y, x);
    } else {
      var s := d1 + [c] + x;
      assert d1 == s[..|d1|];
    }
  }

  /** A separator followed by a digit string differs from the same
      separator followed by any longer digit string, whatever precedes
      them. */
  lemma LongerDigitsDiffer(x: string, y: string, c: char, d1: string, d2: string)
    requires AllDigits(d2) && !IsDigit(c) && |d1| < |d2|
    ensures x + [c] + d1 != y + [c] + d2
  {
    var s := x + [c] + d1;
    var u := y + [c] + d2;
    if |s| == |u| {
      var p := |s| - |d1| - 1;
      assert s[p] == c;
      assert u[p] == d2[|d2| - |d1| - 1];
    }
  }

  /** Text, a non-digit separator and a digit string: the digits after the
      last separator and the text before it are determined. */
  lemma DigitsAfterSeparator(x: string, y: string, c: char, d1: string, d2: string)
    requires AllDigits(d1) && AllDigits(d2) && !IsDigit(c)
    requires x + [c] + d1 == y + [c] + d2
    ensures x == y && d1 == d2
  {
    if |d1| < |d2| {
      LongerDigitsDiffer(x, y, c, d1, d2);
    } else if |d2| < |d1| {
      LongerDigitsDiffer(y, x, c, d2, d1);
    } else {
      var s := x + [c] + d1;
      assert x == s[..|x|] && d1 == s[|x| + 1..];
      var u := y + [c] + d2;
      assert y == u[..|y|] && d2 == u[|y| + 1..];
    }
  }

  /** Python's `str(i)` for any integer. */
  function IntToString(i: int): (r: string)
    ensures i >= 0 ==> r == NatToString(i)
    ensures i < 0 ==> r == "-" + NatToString(-i)
  {
    if i < 0 then "-" + NatToString(-i) else NatToString(i)
  }

  /** The texts `str` gives for integers: digits, optionally after a minus
      sign. */
  predicate IntText(s: string) {
    (|s| >= 1 && AllDigits(s)) || (|s| >= 2 && s[0] == '-' && AllDigits(s[1..]))
  }

  /** Python's `int(s)` on such a text. */
  function ParseInt(s: string): int
    requires IntText(s)
  {
    if |s| >= 1 && AllDigits(s) then ParseNat(s) else -(ParseNat(s[1..]) as int)
  }

  /** `str` of an integer is read back by `int`, and contains neither a
      comma nor whitespace. */
  lemma IntToStringRoundTrip(i: int)
    ensures IntText(IntToString(i)) && ParseInt(IntToString(i)) == i
    ensures ',' !in IntToString(i)
  {
    var r := IntToString(i);
    if i < 0 {
      assert r[1..] == NatToString(-i);
      assert !IsDigit(r[0]);
    }
  }

  function Repeat(c: char, n: nat): (r: string)
    ensures |r| == n && forall i | 0 <= i < n :: r[i] == c
  {
    seq(n, _ => c)
  }

  /** The right-aligned field of an f-string width specification: `s`
      preceded by `fill` up to `width` characters, or `s` itself when it
      is already that wide. */
  function PadLeft(s: string, width: nat, fill: char): (r: string)
    ensures |r| == if |s| < width then width else |s|
    ensures r[|r| - |s|..] == s
    ensures forall i | 0 <= i < |r| - |s| :: r[i] == fill
  {
    if |s| < width then Repeat(fill, width - |s|) + s else s
  }

  /** A leading zero does not change the value of a digit string. */
  lemma {:induction false} LeadingZeroValue(d: string)
    requires |d| >= 1 && AllDigits(d)
    ensures AllDigits("0" + d) && ParseNat("0" + d) == ParseNat(d)
    decreases |d|
  {
    var s := "0" + d;
    if |d| > 1 {
      assert s[..|s| - 1] == "0" + d[..|d| - 1];
      LeadingZeroValue(d[..|d| - 1]);
    } else {
      assert s[..1] == "0";
    }
  }

  /** Zero padding does not change the value of a digit string. */
  lemma {:induction false} ZeroPaddingValue(k: nat, d: string)
    requires |d| >= 1 && AllDigits(d)
    ensures AllDigits(Repeat('0', k) + d) && ParseNat(Repeat('0', k) + d) == ParseNat(d)
  {
    if k > 0 {
      ZeroPaddingValue(k - 1, d);
      var t := Repeat('0', k - 1) + d;
      assert Repeat('0', k) + d == "0" + t;
      LeadingZeroValue(t);
    } else {
      assert Repeat('0', 0) + d == d;
    }
  }

  /** The `{n:0wd}` field of an f-string reads back as `n`, so different
      numbers give different fields. */
  lemma ZeroPadReadBack(n: nat, w: nat)
    ensures AllDigits(PadLeft(NatToString(n), w, '0'))
    ensures ParseNat(PadLeft(NatToString(n), w, '0')) == n
  {
    var d := NatToString(n);
    if |d| < w {
      ZeroPaddingValue(w - |d|, d);
    }
  }

  predicate OccursAt(s: string, pat: string, i: nat) {
    i + |pat| <= |s| && s[i..i + |pat|] == pat
  }

  /** Python's `pat in s`. */
  predicate Contains(s: string, pat: string) {
    exists i | 0 <= i <= |s| :: OccursAt(s, pat, i)
  }

  /** Python's `s.replace(pat, rep)`: left to right, non-overlapping. */
  function ReplaceAll(s: string, pat: string, rep: string): string
    requires |pat| > 0
    decreases |s|
  {
    if |s| < |pat| then s
    else if s[..|pat|] == pat then rep + ReplaceAll(s[|pat|..], pat, rep)
    else [s[0]] + ReplaceAll(s[1..], pat, rep)
  }

  /** Replacing a pattern that does not occur changes nothing. */
  lemma {:induction false} ReplaceAbsent(s: string, pat: string, rep: string)
    requires |pat| > 0 && !Contains(s, pat)
    ensures ReplaceAll(s, pat, rep) == s
    decreases |s|
  {
    if |s| >= |pat| {
      assert !OccursAt(s, pat, 0);
      assert !Contains(s[1..], pat) by {
        if Contains(s[1..], pat) {
          var i :| 0 <= i <= |s[1..]| && OccursAt(s[1..], pat, i);
          assert s[i + 1..i + 1 + |pat|] == s[1..][i..i + |pat|];
          assert OccursAt(s, pat, i + 1);
        }
      }
      ReplaceAbsent(s[1..], pat, rep);
    }
  }

  /** Removing a character leaves none of it. */
  lemma {:induction false} ReplaceRemovesChar(s: string, c: char)
    ensures c !in ReplaceAll(s, [c], [])
    decreases |s|
  {
    if |s| >= 1 {
      if s[..1] == [c] {
        ReplaceRemovesChar(s[1..], c);
      } else {
        assert s[0] != c by { assert s[..1] == [s[0]]; }
        ReplaceRemovesChar(s[1..], c);
      }
    }
  }

  /** `replace` introduces no character absent from both texts. */
  lemma {:induction false} ReplaceAllKeepsAbsent(s: string, pat: string, rep: string, c: char)
    requires |pat| > 0 && c !in s && c !in rep
    ensures c !in ReplaceAll(s, pat, rep)
    decreases |s|
  {
    if |s| >= |pat| {
      if s[..|pat|] == pat {
        ReplaceAllKeepsAbsent(s[|pat|..], pat, rep, c);
      } else {
        ReplaceAllKeepsAbsent(s[1..], pat, rep, c);
      }
    }
  }

  /** `replace` at an occurrence of the pattern. */
  lemma ReplaceAtMatch(s: string, pat: string, rep: string)
    requires |pat| > 0 && |pat| <= |s| && s[..|pat|] == pat
    ensures ReplaceAll(s, pat, rep) == rep + ReplaceAll(s[|pat|..], pat, rep)
  {
  }

  /** `replace` at a character that does not start the pattern. */
  lemma ReplaceAtMiss(s: string, pat: string, rep: string)
    requires |pat| > 0 && |s| > 0 && s[0] != pat[0]
    ensures ReplaceAll(s, pat, rep) == [s[0]] + ReplaceAll(s[1..], pat, rep)
  {
    assert |pat| <= |s| ==> s[..|pat|] != pat by {
      if |pat| <= |s| { assert s[..|pat|][0] == s[0]; }
    }
  }

  /** Text that does not contain the first character of the pattern is
      copied as it is, and the occurrence right after it is replaced. */
  lemma {:induction false} ReplaceAfterPlainPrefix(prefix: string, pat: string, rep: string, rest: string)
    requires |pat| > 0 && pat[0] !in prefix
    ensures ReplaceAll(prefix + pat + rest, pat, rep) == prefix + rep + ReplaceAll(rest, pat, rep)
    decreases |prefix|
  {
    var s := prefix + pat + rest;
    if prefix == [] {
      assert s == pat + rest && s[..|pat|] == pat && s[|pat|..] == rest;
      ReplaceAtMatch(s, pat, rep);
    } else {
      var q := prefix[1..];
      var t := ReplaceAll(rest, pat, rep);
      ReplaceAfterPlainPrefix(q, pat, rep, rest);
      ReplaceAfterChar(prefix[0], q + pat + rest, pat, rep);
      HeadSplit(prefix, pat, rest);
      HeadSplit(prefix, rep, t);
    }
  }

  /** Splitting the first element off a three-part concatenation. */
  lemma HeadSplit<T>(a: seq<T>, b: seq<T>, c: seq<T>)
    requires a != []
    ensures a + b + c == [a[0]] + (a[1..] + b + c)
  {
  }

  /** A character that does not start the pattern is copied. */
  lemma ReplaceAfterChar(c: char, u: string, pat: string, rep: string)
    requires |pat| > 0 && c != pat[0]
    ensures ReplaceAll([c] + u, pat, rep) == [c] + ReplaceAll(u, pat, rep)
  {
    var s := [c] + u;
    assert s[1..] == u;
    ReplaceAtMiss(s, pat, rep);
  }

  /** Replacing one character distributes over concatenation. */
  lemma {:induction false} ReplaceCharConcat(a: string, b: string, c: char, rep: string)
    ensures ReplaceAll(a + b, [c], rep) == ReplaceAll(a, [c], rep) + ReplaceAll(b, [c], rep)
    decreases |a|
  {
    if a != [] {
      var s := a + b;
      assert s[1..] == a[1..] + b;
      ReplaceCharConcat(a[1..], b, c, rep);
      if a[0] == c {
        assert s[..1] == [c] && a[..1] == [c];
        ReplaceAtMatch(s, [c], rep);
        ReplaceAtMatch(a, [c], rep);
      } else {
        ReplaceAtMiss(s, [c], rep);
        ReplaceAtMiss(a, [c], rep);
      }
    } else {
      assert a + b == b;
    }
  }

  /** `strip` introduces no character. */
  lemma StripKeepsAbsent(s: string, c: char)
    requires c !in s
    ensures c !in Strip(s)
  {
    var t := s[LeadingSpaces(s)..];
    assert c !in t;
  }

  /** A character absent from a text does not occur in it as a
      one-character pattern. */
  lemma AbsentNotContained(s: string, c: char)
    requires c !in s
    ensures !Contains(s, [c])
  {
    forall i | 0 <= i <= |s| ensures !OccursAt(s, [c], i) {
      if i + 1 <= |s| {
        assert s[i..i + 1] == [s[i]];
      }
    }
  }
  /** Reading a file opened with `"r"`: universal newlines turn every
      `"\r\n"` and every lone `"\r"` into `"\n"`. */
  function ReadBack(s: string): (r: string)
    ensures |r| <= |s|
    ensures forall k | 0 <= k < |r| :: r[k] != '\r'
  {
    if s == [] then []
    else if s[0] == '\r' then
      if |s| > 1 && s[1] == '\n' then "\n" + ReadBack(s[2..]) else "\n" + ReadBack(s[1..])
    else [s[0]] + ReadBack(s[1..])
  }

  /** Text without a carriage return reads back as written. */
  lemma {:induction false} ReadBackPlain(s: string)
    requires forall k | 0 <= k < |s| :: s[k] != '\r'
    ensures ReadBack(s) == s
  {
    if s != [] {
      ReadBackPlain(s[1..]);
    }
  }

  /** Reading back twice is reading back once. */
  lemma ReadBackIdempotent(s: string)
    ensures ReadBack(ReadBack(s)) == ReadBack(s)
  {
    ReadBackPlain(ReadBack(s));
  }
}
