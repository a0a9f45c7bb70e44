/** Generic sequence operations standing for the JavaScript array methods the
    dashboard uses (`filter`, `find`), with the order facts proved about them. */
module Seqs {
  import opened Wrappers

  /** `xs` is `ys` with some elements left out and the rest kept in their order. */
  ghost predicate IsSubsequence<T>(xs: seq<T>, ys: seq<T>)
    decreases |ys|
  {
    if xs == [] then true
    else if ys == [] then false
    else (xs[0] == ys[0] && IsSubsequence(xs[1..], ys[1..])) || IsSubsequence(xs, ys[1..])
  }

  /** `Array.prototype.filter`: the elements satisfying `p`, in order. */
  function Filter<T>(s: seq<T>, p: T -> bool): (r: seq<T>)
    ensures |r| <= |s|
    ensures forall x :: x in r ==> x in s && p(x)
    ensures forall x :: x in s && p(x) ==> x in r
    ensures IsSubsequence(r, s)
    ensures (forall x :: x in s ==> p(x)) ==> r == s
  {
    if s == [] then []
    else if p(s[0]) then [s[0]] + Filter(s[1..], p)
    else Filter(s[1..], p)
  }

  /** The positions of `s` whose element satisfies `p`. */
  function Positions<T>(s: seq<T>, p: T -> bool): set<int> {
    set i | 0 <= i < |s| && p(s[i])
  }

  /** `filter(p).length` counts the positions that pass, repeated values included. */
  lemma FilterCountsPositions<T>(s: seq<T>, p: T -> bool)
    ensures |Filter(s, p)| == |Positions(s, p)|
  {
    FilterCountsFrom(s, p, 0);
    assert s[0..] == s;
  }

  /** The same count for the suffix from position `k`. */
  lemma {:induction false} FilterCountsFrom<T>(s: seq<T>, p: T -> bool, k: nat)
    requires k <= |s|
    ensures |Filter(s[k..], p)| == |set i | k <= i < |s| && p(s[i])|
    decreases |s| - k
  {
    if k < |s| {
      FilterCountsFrom(s, p, k + 1);
      PositionsFromStep(s, p, k);
      FilterLength(s[k..], p);
      assert s[k..][1..] == s[k + 1..];
    }
  }

  /** Position `k` passes or not; the positions after it are counted apart. */
  lemma PositionsFromStep<T>(s: seq<T>, p: T -> bool, k: nat)
    requires k < |s|
    ensures |set i | k <= i < |s| && p(s[i])| == (if p(s[k]) then 1 else 0) + |set i | k + 1 <= i < |s| && p(s[i])|
  {
    var all := set i | k <= i < |s| && p(s[i]);
    var rest := set i | k + 1 <= i < |s| && p(s[i]);
    if p(s[k]) {
      assert all == {k} + rest;
    } else {
      assert all == rest;
    }
  }

  lemma FilterLength<T>(t: seq<T>, p: T -> bool)
    requires t != []
    ensures |Filter(t, p)| == (if p(t[0]) then 1 else 0) + |Filter(t[1..], p)|
  {
  }

  /** `Array.prototype.map`. */
  function Map<A, B>(s: seq<A>, f: A -> B): (r: seq<B>)
    ensures |r| == |s| && forall i :: 0 <= i < |s| ==> r[i] == f(s[i])
  {
    seq(|s|, i requires 0 <= i < |s| => f(s[i]))
  }

  /** `f(1), ..., f(n)`. */
  function Tabulate<T>(n: nat, f: int -> T): (r: seq<T>)
    ensures |r| == n && forall i :: 0 <= i < n ==> r[i] == f(i + 1)
  {
    seq(n, i => f(i + 1))
  }

  /** Tabulating one more value appends it. */
  lemma TabulateNext<T>(n: nat, f: int -> T)
    ensures Tabulate(n + 1, f) == Tabulate(n, f) + [f(n + 1)]
  {
    var a := Tabulate(n + 1, f);
    var b := Tabulate(n, f) + [f(n + 1)];
    forall i | 0 <= i < n + 1 ensures a[i] == b[i] {
      if i < n {
        assert b[i] == Tabulate(n, f)[i];
      }
    }
  }

  /** Mapping one more element of a prefix appends its image. */
  lemma MapPrefixNext<A, B>(s: seq<A>, f: A -> B, i: nat)
    requires i < |s|
    ensures Map(s[..i + 1], f) == Map(s[..i], f) + [f(s[i])]
  {
    var a := Map(s[..i + 1], f);
    var b := Map(s[..i], f) + [f(s[i])];
    forall j | 0 <= j <= i ensures a[j] == b[j] {
      if j < i {
        assert b[j] == Map(s[..i], f)[j];
      }
    }
  }

  /** `s.map(f)` where `f` may throw (`None`): the mapped sequence, or `None` as soon
      as one element throws. */
  function MapAll<A, B>(s: seq<A>, f: A -> Option<B>): (r: Option<seq<B>>)
    ensures r.Some? <==> forall i :: 0 <= i < |s| ==> f(s[i]).Some?
    ensures r.Some? ==> (|r.value| == |s| && forall i :: 0 <= i < |s| ==> r.value[i] == f(s[i]).value)
  {
    if s == [] then Some([])
    else
      match f(s[0])
      case None => None
      case Some(first) =>
        match MapAll(s[1..], f)
        case None =>
          assert forall i :: 1 <= i < |s| ==> s[i] == s[1..][i - 1];
          None
        case Some(rest) =>
          assert forall i :: 1 <= i < |s| ==> s[i] == s[1..][i - 1];
          Some([first] + rest)
  }

  /** Index of the first element satisfying `p` (what `Array.prototype.find` looks for). */
  function FirstIndex<T>(s: seq<T>, p: T -> bool): (r: Option<nat>)
    ensures r.None? <==> forall i :: 0 <= i < |s| ==> !p(s[i])
    ensures r.Some? ==> r.value < |s| && p(s[r.value]) && forall j :: 0 <= j < r.value ==> !p(s[j])
  {
    if s == [] then None
    else if p(s[0]) then Some(0)
    else match FirstIndex(s[1..], p)
      case None => None
      case Some(i) => Some(i + 1)
  }

  /** `Array.prototype.find`: the first element satisfying `p`, or `undefined`. */
  function Find<T>(s: seq<T>, p: T -> bool): (r: Option<T>)
    ensures r.None? <==> forall x :: x in s ==> !p(x)
    ensures r.Some? ==> exists i :: 0 <= i < |s| && s[i] == r.value && p(s[i]) && forall j :: 0 <= j < i ==> !p(s[j])
  {
    match FirstIndex(s, p)
    case None => None
    case Some(i) => Some(s[i])
  }

  /** Searching a filtered sequence finds the first element of the original sequence
      that satisfies both the filter and the search predicate; `i` is its index. */
  lemma {:induction false} FindAfterFilter<T>(s: seq<T>, p: T -> bool, q: T -> bool) returns (i: nat)
    ensures Find(Filter(s, p), q).None? <==> forall k :: 0 <= k < |s| ==> !(p(s[k]) && q(s[k]))
    ensures Find(Filter(s, p), q).Some? ==>
      i < |s| && p(s[i]) && q(s[i]) && Find(Filter(s, p), q).value == s[i] &&
      forall j :: 0 <= j < i ==> !(p(s[j]) && q(s[j]))
  {
    i := 0;
    if s == [] {
      return;
    }
    var i' := FindAfterFilter(s[1..], p, q);
    FindFilterStep(s, p, q);
    if !(p(s[0]) && q(s[0])) {
      i := i' + 1;
      if Find(Filter(s, p), q).Some? {
        forall j | 0 <= j < i ensures !(p(s[j]) && q(s[j])) {
          if j > 0 { assert s[j] == s[1..][j - 1]; }
        }
      }
    }
  }

  /** One step of the search through a filtered sequence. */
  lemma FindFilterStep<T>(s: seq<T>, p: T -> bool, q: T -> bool)
    requires s != []
    ensures Find(Filter(s, p), q) ==
      if p(s[0]) && q(s[0]) then Some(s[0]) else Find(Filter(s[1..], p), q)
  {
    var f' := Filter(s[1..], p);
    if p(s[0]) {
      FindCons(s[0], f', q);
    }
  }

  lemma FindCons<T>(x: T, t: seq<T>, q: T -> bool)
    ensures Find([x] + t, q) == if q(x) then Some(x) else Find(t, q)
  {
    assert ([x] + t)[1..] == t;
  }
}
