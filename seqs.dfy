// Searching and selecting in sequences: `find`/`findIndex` and "keep the
// flagged elements, in order".

module Seqs {
  import opened Maybe

  /** The index of the first element satisfying `p`, as `findIndex` gives it. */
  function FirstIndex<T>(s: seq<T>, p: T -> bool): (r: Option<nat>)
    ensures r.None? <==> forall i | 0 <= i < |s| :: !p(s[i])
    ensures r.Some? ==> r.value < |s| && p(s[r.value]) && forall j | 0 <= j < r.value :: !p(s[j])
  {
    FirstIndexFrom(s, p, 0)
  }

  /** A satisfying element with none before it is the one found. */
  lemma FirstIndexIs<T>(s: seq<T>, p: T -> bool, i: nat)
    requires i < |s| && p(s[i]) && forall j | 0 <= j < i :: !p(s[j])
    ensures FirstIndex(s, p) == Some(i)
  {
  }

  /** The search for the first index at or after `i` whose element satisfies `p`. */
  function FirstIndexFrom<T>(s: seq<T>, p: T -> bool, i: nat): (r: Option<nat>)
    requires i <= |s|
    ensures r.None? <==> forall j | i <= j < |s| :: !p(s[j])
    ensures r.Some? ==> i <= r.value < |s| && p(s[r.value]) && forall j | i <= j < r.value :: !p(s[j])
    decreases |s| - i
  {
    if i == |s| then None
    else if p(s[i]) then Some(i)
    else FirstIndexFrom(s, p, i + 1)
  }

  /** `[x]` when `keep` holds, else nothing. */
  function Keep<T>(keep: bool, x: T): seq<T> {
    if keep then [x] else []
  }

  /** The elements of `xs` whose flag is set, in order. */
  function Pick<T>(xs: seq<T>, flags: seq<bool>): seq<T>
    requires |xs| == |flags|
  {
    if xs == [] then [] else Keep(flags[0], xs[0]) + Pick(xs[1..], flags[1..])
  }

  /** Picking from a sequence with one more element at the end. */
  lemma {:induction false} PickSnoc<T>(xs: seq<T>, flags: seq<bool>, x: T, b: bool)
    requires |xs| == |flags|
    ensures Pick(xs + [x], flags + [b]) == Pick(xs, flags) + Keep(b, x)
  {
    if xs == [] {
      assert xs + [x] == [x] && flags + [b] == [b];
    } else {
      assert (xs + [x])[1..] == xs[1..] + [x];
      assert (flags + [b])[1..] == flags[1..] + [b];
      PickSnoc(xs[1..], flags[1..], x, b);
    }
  }

  /** The positions of the set flags, in increasing order. */
  function TrueIndices(flags: seq<bool>): seq<nat>
  {
    if flags == [] then [] else (if flags[0] then [0] else []) + Shift(TrueIndices(flags[1..]))
  }

  function Shift(s: seq<nat>): (r: seq<nat>)
    ensures |r| == |s| && forall k | 0 <= k < |s| :: r[k] == s[k] + 1
  {
    seq(|s|, k requires 0 <= k < |s| => s[k] + 1)
  }

  /** The listed positions are positions of set flags, in increasing order. */
  lemma TrueIndicesSound(flags: seq<bool>)
    ensures var idx := TrueIndices(flags);
      && (forall k | 0 <= k < |idx| :: idx[k] < |flags| && flags[idx[k]])
      && StrictlyIncreasing(idx)
  {
    TrueIndicesAreSet(flags);
    TrueIndicesIncrease(flags);
  }

  lemma {:induction false} TrueIndicesAreSet(flags: seq<bool>)
    ensures forall k | 0 <= k < |TrueIndices(flags)| ::
      TrueIndices(flags)[k] < |flags| && flags[TrueIndices(flags)[k]]
  {
    if flags != [] {
      TrueIndicesAreSet(flags[1..]);
      var rest := TrueIndices(flags[1..]);
      var idx := TrueIndices(flags);
      var h := if flags[0] then 1 else 0;
      assert idx == (if flags[0] then [0] else []) + Shift(rest);
      forall k | h <= k < |idx|
        ensures idx[k] < |flags| && flags[idx[k]]
      {
        assert k - h < |rest|;
        var j := rest[k - h];
        assert j < |flags[1..]| && flags[1..][j];
        assert idx[k] == j + 1;
      }
    }
  }

  lemma {:induction false} TrueIndicesIncrease(flags: seq<bool>)
    ensures StrictlyIncreasing(TrueIndices(flags))
  {
    if flags != [] {
      TrueIndicesIncrease(flags[1..]);
      var rest := TrueIndices(flags[1..]);
      var idx := TrueIndices(flags);
      var h := if flags[0] then 1 else 0;
      assert idx == (if flags[0] then [0] else []) + Shift(rest);
      forall k, l | 0 <= k < l < |idx|
        ensures idx[k] < idx[l]
      {
        assert idx[l] == rest[l - h] + 1;
        if k >= h {
          assert idx[k] == rest[k - h] + 1;
          assert rest[k - h] < rest[l - h];
        }
      }
    }
  }

  /** Every set flag's position is listed. */
  lemma {:induction false} TrueIndicesComplete(flags: seq<bool>, i: nat)
    requires i < |flags| && flags[i]
    ensures i in TrueIndices(flags)
  {
    var idx := TrueIndices(flags);
    var h := if flags[0] then 1 else 0;
    var rest := TrueIndices(flags[1..]);
    assert idx == (if flags[0] then [0] else []) + Shift(rest);
    if i > 0 {
      TrueIndicesComplete(flags[1..], i - 1);
      var k :| 0 <= k < |rest| && rest[k] == i - 1;
      assert idx[h + k] == i;
    } else {
      assert idx[0] == 0;
    }
  }

  predicate StrictlyIncreasing(idx: seq<nat>) {
    forall k, l | 0 <= k < l < |idx| :: idx[k] < idx[l]
  }

  /** The k-th element picked is `xs[TrueIndices(flags)[k]]`. */
  lemma {:induction false} PickSelectsFlagged<T>(xs: seq<T>, flags: seq<bool>)
    requires |xs| == |flags|
    ensures var idx := TrueIndices(flags);
      && |idx| == |Pick(xs, flags)|
      && (forall k | 0 <= k < |idx| :: idx[k] < |xs| && Pick(xs, flags)[k] == xs[idx[k]])
  {
    if xs != [] {
      PickSelectsFlagged(xs[1..], flags[1..]);
      var rest := TrueIndices(flags[1..]);
      var tail := Pick(xs[1..], flags[1..]);
      var p := Pick(xs, flags);
      var idx := TrueIndices(flags);
      var h := if flags[0] then 1 else 0;
      assert idx == (if flags[0] then [0] else []) + Shift(rest);
      assert p == Keep(flags[0], xs[0]) + tail;
      forall k | h <= k < |idx|
        ensures idx[k] < |xs| && p[k] == xs[idx[k]]
      {
        assert idx[k] == rest[k - h] + 1;
        assert p[k] == tail[k - h];
      }
    }
  }

  /** Picking from a sequence without repetitions gives one without repetitions. */
  lemma PickDistinct<T>(xs: seq<T>, flags: seq<bool>)
    requires |xs| == |flags|
    requires forall i, j | 0 <= i < j < |xs| :: xs[i] != xs[j]
    ensures var p := Pick(xs, flags); forall k, l | 0 <= k < l < |p| :: p[k] != p[l]
  {
    PickSelectsFlagged(xs, flags);
    TrueIndicesSound(flags);
  }

  /** Picking from a sequence without repetitions: an element is picked
      exactly when its flag is set, nothing is picked twice, and nothing
      else is picked. */
  lemma PickCharacterised<T>(xs: seq<T>, flags: seq<bool>)
    requires |xs| == |flags|
    requires forall i, j | 0 <= i < j < |xs| :: xs[i] != xs[j]
    ensures var p := Pick(xs, flags);
      && |p| <= |xs|
      && (forall i | 0 <= i < |xs| :: xs[i] in p <==> flags[i])
      && (forall k, l | 0 <= k < l < |p| :: p[k] != p[l])
      && (forall k | 0 <= k < |p| :: p[k] in xs)
  {
    var p := Pick(xs, flags);
    var idx := TrueIndices(flags);
    PickSelectsFlagged(xs, flags);
    assert |p| <= |xs| by {
      TrueIndicesSound(flags);
      IncreasingBounded(idx, |xs|);
    }
    PickDistinct(xs, flags);
    forall i | 0 <= i < |xs|
      ensures xs[i] in p <==> flags[i]
    {
      if flags[i] {
        TrueIndicesComplete(flags, i);
        var k :| 0 <= k < |idx| && idx[k] == i;
        assert p[k] == xs[i];
      }
      if xs[i] in p {
        var k :| 0 <= k < |p| && p[k] == xs[i];
        assert xs[idx[k]] == xs[i];
      }
    }
    forall k | 0 <= k < |p|
      ensures p[k] in xs
    {
      assert p[k] == xs[idx[k]];
    }
  }

  /** A strictly increasing list of indices below `bound` has at most `bound` entries. */
  lemma {:induction false} IncreasingBounded(idx: seq<nat>, bound: nat)
    requires StrictlyIncreasing(idx)
    requires forall k | 0 <= k < |idx| :: idx[k] < bound
    ensures |idx| <= bound
  {
    if idx != [] {
      var last := idx[|idx| - 1];
      var init := idx[..|idx| - 1];
      assert StrictlyIncreasing(init);
      assert forall k | 0 <= k < |init| :: init[k] < last;
      IncreasingBounded(init, last);
    }
  }
}
