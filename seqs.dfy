/** Positions of the rows a filter keeps, and small facts about sequences
    that the loops building lists use. */
module Seqs {
  import opened Wrappers

  /** The positions of the true flags, in increasing order: the index of a
      filtered DataFrame. */
  function Positions(flags: seq<bool>): (r: seq<nat>)
    ensures forall k | 0 <= k < |r| :: r[k] < |flags| && flags[r[k]]
    ensures forall k, l | 0 <= k < l < |r| :: r[k] < r[l]
    ensures forall i | 0 <= i < |flags| && flags[i] :: i in r
  {
    if flags == [] then []
    else
      var n := |flags| - 1;
      var front := Positions(flags[..n]);
      assert forall i | 0 <= i < n :: flags[..n][i] == flags[i];
      if flags[n] then
        var r := front + [n];
        assert forall k | 0 <= k < |front| :: r[k] == front[k];
        r
      else front
  }

  /** Looking at one more flag adds its position when it is set. */
  lemma PositionsStep(flags: seq<bool>, idx: nat)
    requires idx < |flags|
    ensures Positions(flags[..idx + 1]) == Positions(flags[..idx]) + if flags[idx] then [idx] else []
  {
    assert flags[..idx + 1][..idx] == flags[..idx];
  }

  /** No flag set, no position. */
  lemma PositionsNone(flags: seq<bool>)
    requires forall i | 0 <= i < |flags| :: !flags[i]
    ensures Positions(flags) == []
  {
  }

  /** Every flag set, every position, in order. */
  lemma {:induction false} PositionsAll(flags: seq<bool>)
    requires forall i | 0 <= i < |flags| :: flags[i]
    ensures Positions(flags) == seq(|flags|, i requires 0 <= i < |flags| => i)
  {
    if flags != [] {
      var n := |flags| - 1;
      PositionsAll(flags[..n]);
    }
  }

  function AsSet(s: seq<nat>): (r: set<nat>)
    ensures forall x :: x in r <==> x in s
  {
    set x | x in s
  }

  /** The set of a prefix grows by the next element. */
  lemma AsSetStep(s: seq<nat>, k: nat)
    requires k < |s|
    ensures AsSet(s[..k + 1]) == AsSet(s[..k]) + {s[k]}
  {
    assert s[..k + 1] == s[..k] + [s[k]];
  }

  /** Extending a prefix by one element gives the next prefix. */
  lemma PrefixStep<T>(s: seq<T>, k: nat)
    requires k < |s|
    ensures s[..k + 1] == s[..k] + [s[k]]
  {
  }

  /** A non-empty list is its front followed by its last element. */
  lemma FrontLast<T>(s: seq<T>)
    requires s != []
    ensures s[..|s| - 1] + [s[|s| - 1]] == s
  {
  }

  /** A common prefix can be dropped. */
  lemma PrefixCancel<T>(p: seq<T>, a: seq<T>, b: seq<T>)
    requires p + a == p + b
    ensures a == b
  {
    assert a == (p + a)[|p|..];
    assert b == (p + b)[|p|..];
  }

  /** A two-element list is the list of its two elements. */
  lemma PairElements<T>(s: seq<T>)
    requires |s| == 2
    ensures s == [s[0], s[1]]
  {
  }

  /** The lists of `parts` one after the other: `pd.concat` of frames, or
      repeated `+=` on a string. */
  function Flatten<T>(parts: seq<seq<T>>): seq<T> {
    if parts == [] then [] else Flatten(parts[..|parts| - 1]) + parts[|parts| - 1]
  }

  /** Flattening one more part appends it. */
  lemma FlattenStep<T>(parts: seq<seq<T>>, k: nat)
    requires k < |parts|
    ensures Flatten(parts[..k + 1]) == Flatten(parts[..k]) + parts[k]
  {
    assert parts[..k + 1][..k] == parts[..k];
  }

  /** The values that are present, in order. */
  function Somes<T>(xs: seq<Option<T>>): (r: seq<T>)
    ensures |r| <= |xs|
  {
    if xs == [] then []
    else
      var last := xs[|xs| - 1];
      Somes(xs[..|xs| - 1]) + if last.Some? then [last.value] else []
  }

  /** When every value is present, each one is kept at its own index. */
  lemma {:induction false} SomesAllPresent<T>(xs: seq<Option<T>>)
    requires forall i | 0 <= i < |xs| :: xs[i].Some?
    ensures |Somes(xs)| == |xs|
    ensures forall i | 0 <= i < |xs| :: Some(Somes(xs)[i]) == xs[i]
  {
    if xs != [] {
      var init := xs[..|xs| - 1];
      assert forall i | 0 <= i < |init| :: init[i] == xs[i];
      SomesAllPresent(init);
    }
  }
}
