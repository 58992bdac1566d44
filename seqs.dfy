/** Order-preserving selections over sequences: the `filter` and fused
    `filter`/`map` chains the application writes with JavaScript arrays. */
module Seqs {
  import opened Wrappers

  /** Positions listed in strictly increasing order. */
  ghost predicate StrictlyIncreasing(src: seq<nat>) {
    forall a, b :: 0 <= a < b < |src| ==> src[a] < src[b]
  }

  /** JavaScript's `xs.filter(p)`: the elements satisfying `p`, in order. */
  function Filter<T>(xs: seq<T>, p: T -> bool): (r: seq<T>)
    ensures |r| <= |xs|
    ensures forall k :: 0 <= k < |r| ==> p(r[k])
  {
    if xs == [] then [] else (if p(xs[0]) then [xs[0]] else []) + Filter(xs[1..], p)
  }

  /** The length of the longest prefix of `xs` whose elements all satisfy `p`. */
  function PrefixRun<T>(xs: seq<T>, p: T -> bool): (n: nat)
    ensures n <= |xs|
    ensures forall i :: 0 <= i < n ==> p(xs[i])
    ensures n == |xs| || !p(xs[n])
  {
    if xs != [] && p(xs[0]) then
      var n := PrefixRun(xs[1..], p);
      assert forall i :: 1 <= i <= n ==> xs[i] == xs[1..][i - 1];
      1 + n
    else 0
  }

  /** The length of the longest suffix of `xs` whose elements all satisfy `p`. */
  function SuffixRun<T>(xs: seq<T>, p: T -> bool): (n: nat)
    ensures n <= |xs|
    ensures forall i :: |xs| - n <= i < |xs| ==> p(xs[i])
    ensures n == |xs| || !p(xs[|xs| - 1 - n])
  {
    if xs != [] && p(xs[|xs| - 1]) then
      var n := SuffixRun(xs[..|xs| - 1], p);
      assert forall i :: |xs| - 1 - n <= i < |xs| - 1 ==> xs[i] == xs[..|xs| - 1][i];
      1 + n
    else 0
  }

  /** A prefix length that satisfies `p` throughout and stops at an element
      that does not (or at the end) is the longest one. */
  lemma PrefixRunUnique<T>(xs: seq<T>, p: T -> bool, n: nat)
    requires n <= |xs| && (forall i :: 0 <= i < n ==> p(xs[i])) && (n == |xs| || !p(xs[n]))
    ensures PrefixRun(xs, p) == n
  {
  }

  /** Drops the longest prefix whose elements all satisfy `p`. */
  function DropWhile<T>(xs: seq<T>, p: T -> bool): seq<T> {
    xs[PrefixRun(xs, p)..]
  }

  /** Two `DropWhile`s in a row, stated by the end `m` of the first dropped
      run and the end `k` of the second. */
  lemma DropWhileTwice<T>(xs: seq<T>, p: T -> bool, q: T -> bool) returns (m: nat, k: nat)
    ensures m <= k <= |xs| && DropWhile(DropWhile(xs, p), q) == xs[k..]
    ensures (forall i :: 0 <= i < m ==> p(xs[i])) && (m == |xs| || !p(xs[m]))
    ensures (forall i :: m <= i < k ==> q(xs[i])) && (k == |xs| || !q(xs[k]))
  {
    m := PrefixRun(xs, p);
    var rest := xs[m..];
    var j := PrefixRun(rest, q);
    k := m + j;
    assert rest[j..] == xs[k..];
    assert forall i :: m <= i < k ==> xs[i] == rest[i - m];
  }

  /** Dropping from a prefix that satisfies `p` throughout, up to an element
      that does not, leaves exactly the rest. */
  lemma DropWhileAppend<T>(xs: seq<T>, ys: seq<T>, p: T -> bool)
    requires forall k :: 0 <= k < |xs| ==> p(xs[k])
    requires ys == [] || !p(ys[0])
    ensures DropWhile(xs + ys, p) == ys
  {
    PrefixRunUnique(xs + ys, p, |xs|);
    assert (xs + ys)[|xs|..] == ys;
  }

  /** A `filter` followed by a `map`, fused: `f` says per element whether it
      is kept (`Some`) and what it becomes. */
  function FilterMap<A, B>(xs: seq<A>, f: A -> Option<B>): (r: seq<B>)
    ensures |r| <= |xs|
  {
    if xs == [] then []
    else (match f(xs[0]) case Some(y) => [y] case None => []) + FilterMap(xs[1..], f)
  }

  /** When every element is kept, `FilterMap` is a plain `map`. */
  lemma {:induction false} FilterMapAllKept<A, B>(xs: seq<A>, f: A -> Option<B>, ys: seq<B>)
    requires |xs| == |ys|
    requires forall k :: 0 <= k < |xs| ==> f(xs[k]) == Some(ys[k])
    ensures FilterMap(xs, f) == ys
  {
    if xs != [] {
      FilterMapAllKept(xs[1..], f, ys[1..]);
      assert ys == [ys[0]] + ys[1..];
    }
  }

  /** Shifts every position by one (used when a selection skips a head element). */
  function Shift(src: seq<nat>): (r: seq<nat>)
    ensures |r| == |src|
    ensures forall k :: 0 <= k < |src| ==> r[k] == src[k] + 1
  {
    seq(|src|, k requires 0 <= k < |src| => src[k] + 1)
  }

  /** Each element of `r` is what `f` made of the element of `xs` at the
      matching position of `src`. */
  ghost predicate TakenFrom<A, B>(xs: seq<A>, f: A -> Option<B>, r: seq<B>, src: seq<nat>) {
    && |src| == |r|
    && forall k :: 0 <= k < |src| ==> src[k] < |xs| && f(xs[src[k]]).Some? && r[k] == f(xs[src[k]]).value
  }

  /** `src` lists exactly the positions of `xs` that `f` keeps. */
  ghost predicate Covers<A, B>(xs: seq<A>, f: A -> Option<B>, src: seq<nat>) {
    forall i :: 0 <= i < |xs| ==> (i in src <==> f(xs[i]).Some?)
  }

  /** `r` is what an order-preserving selection by `f` produces from `xs`,
      and `src` names the position of `xs` each element of `r` came from. */
  ghost predicate Selects<A, B>(xs: seq<A>, f: A -> Option<B>, r: seq<B>, src: seq<nat>) {
    TakenFrom(xs, f, r, src) && StrictlyIncreasing(src) && Covers(xs, f, src)
  }

  /** `Filter` as a `FilterMap` whose map step is the identity. */
  function KeepIf<T>(p: T -> bool): T -> Option<T> {
    x => if p(x) then Some(x) else None
  }

  lemma ShiftMembership(src: seq<nat>, i: nat)
    ensures (i + 1 in Shift(src)) <==> (i in src)
    ensures 0 !in Shift(src)
  {
  }

  lemma ShiftIncreasing(src: seq<nat>)
    requires StrictlyIncreasing(src)
    ensures StrictlyIncreasing(Shift(src))
    ensures StrictlyIncreasing([0] + Shift(src))
  {
  }

  lemma ShiftTaken<A, B>(xs: seq<A>, f: A -> Option<B>, r: seq<B>, src: seq<nat>)
    requires |xs| > 0
    requires TakenFrom(xs[1..], f, r, src)
    ensures TakenFrom(xs, f, r, Shift(src))
    ensures f(xs[0]).Some? ==> TakenFrom(xs, f, [f(xs[0]).value] + r, [0] + Shift(src))
  {
  }

  lemma ShiftCovers<A, B>(xs: seq<A>, f: A -> Option<B>, src: seq<nat>)
    requires |xs| > 0
    requires Covers(xs[1..], f, src)
    ensures f(xs[0]).None? ==> Covers(xs, f, Shift(src))
    ensures f(xs[0]).Some? ==> Covers(xs, f, [0] + Shift(src))
  {
  }

  /** The first `n` elements of a selection come from the first `n` of its
      positions, and those are the kept positions up to the `n`-th one. */
  lemma SelectsPrefix<A, B>(xs: seq<A>, f: A -> Option<B>, r: seq<B>, src: seq<nat>, n: nat)
    requires Selects(xs, f, r, src)
    requires 0 < n <= |r|
    ensures TakenFrom(xs, f, r[..n], src[..n]) && StrictlyIncreasing(src[..n])
    ensures forall i :: 0 <= i < |xs| ==> (i in src[..n] <==> f(xs[i]).Some? && i <= src[n - 1])
  {
  }

  /** `FilterMap` keeps exactly the elements `f` maps to `Some`, replaced by
      what `f` maps them to, each from its own position, in their original order. */
  lemma {:induction false} FilterMapSources<A, B>(xs: seq<A>, f: A -> Option<B>) returns (src: seq<nat>)
    ensures Selects(xs, f, FilterMap(xs, f), src)
  {
    if xs == [] {
      src := [];
    } else {
      var rest := FilterMapSources(xs[1..], f);
      var tail := FilterMap(xs[1..], f);
      ShiftIncreasing(rest);
      ShiftTaken(xs, f, tail, rest);
      ShiftCovers(xs, f, rest);
      if f(xs[0]).Some? {
        assert FilterMap(xs, f) == [f(xs[0]).value] + tail;
        src := [0] + Shift(rest);
      } else {
        assert FilterMap(xs, f) == tail;
        src := Shift(rest);
      }
    }
  }

  lemma {:induction false} FilterIsFilterMap<T>(xs: seq<T>, p: T -> bool)
    ensures Filter(xs, p) == FilterMap(xs, KeepIf(p))
  {
    if xs != [] {
      FilterIsFilterMap(xs[1..], p);
    }
  }

  /** `Filter` keeps exactly the elements satisfying `p`, each from its own
      position of `xs`, in their original order: `src` names those positions. */
  lemma FilterSources<T>(xs: seq<T>, p: T -> bool) returns (src: seq<nat>)
    ensures |src| == |Filter(xs, p)|
    ensures StrictlyIncreasing(src)
    ensures forall k :: 0 <= k < |src| ==> src[k] < |xs| && Filter(xs, p)[k] == xs[src[k]]
    ensures forall i :: 0 <= i < |xs| ==> (i in src <==> p(xs[i]))
  {
    FilterIsFilterMap(xs, p);
    src := FilterMapSources(xs, KeepIf(p));
  }

  /** Filtering a concatenation filters each part. */
  lemma {:induction false} FilterAppend<T>(a: seq<T>, b: seq<T>, p: T -> bool)
    ensures Filter(a + b, p) == Filter(a, p) + Filter(b, p)
  {
    if a == [] {
      assert a + b == b;
    } else {
      assert (a + b)[1..] == a[1..] + b;
      FilterAppend(a[1..], b, p);
    }
  }

  /** A filter keeps every element exactly when every element satisfies `p`. */
  lemma {:induction false} FilterKeepsAll<T>(xs: seq<T>, p: T -> bool)
    ensures |Filter(xs, p)| == |xs| <==> forall k :: 0 <= k < |xs| ==> p(xs[k])
  {
    if xs != [] {
      FilterKeepsAll(xs[1..], p);
      assert forall k :: 1 <= k < |xs| ==> xs[1..][k - 1] == xs[k];
    }
  }
}
