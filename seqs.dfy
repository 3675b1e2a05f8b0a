/** Sequence operations shared by the list comprehensions of the system:
    mapping, filtering, and what "keeps the relative order" means. */
module Seqs {

  /** `[f(x) for x in s]`. */
  function Map<T, U>(f: T -> U, s: seq<T>): (r: seq<U>)
    ensures |r| == |s|
    ensures forall i :: 0 <= i < |s| ==> r[i] == f(s[i])
  {
    seq(|s|, i requires 0 <= i < |s| => f(s[i]))
  }

  /** `[x for x in s if p(x)]`, defined element by element from the end so
      that a loop appending to a list can be tied to it. */
  function Filter<T>(p: T -> bool, s: seq<T>): (r: seq<T>)
    ensures |r| <= |s|
  {
    if |s| == 0 then []
    else Filter(p, s[..|s| - 1]) + (if p(s[|s| - 1]) then [s[|s| - 1]] else [])
  }

  /** `idx` picks, in strictly increasing positions of `b`, the elements of `a`. */
  ghost predicate Embeds<T>(a: seq<T>, b: seq<T>, idx: seq<nat>)
  {
    && |idx| == |a|
    && (forall k :: 0 <= k < |idx| ==> idx[k] < |b| && a[k] == b[idx[k]])
    && (forall k, l :: 0 <= k < l < |idx| ==> idx[k] < idx[l])
  }

  /** `a` is `b` with some elements left out and the rest in their order. */
  ghost predicate IsSubsequence<T>(a: seq<T>, b: seq<T>)
  {
    exists idx :: Embeds(a, b, idx)
  }

  /** The positions of `s` that `Filter(p, s)` keeps. */
  function FilterIndices<T>(p: T -> bool, s: seq<T>): (idx: seq<nat>)
    ensures Embeds(Filter(p, s), s, idx)
  {
    if |s| == 0 then []
    else
      var front, last := s[..|s| - 1], s[|s| - 1];
      var idx' := FilterIndices(p, front);
      EmbedsSnoc(Filter(p, front), front, last, idx', p(last));
      assert front + [last] == s;
      idx' + (if p(last) then [|s| - 1] else [])
  }

  /** An embedding into `front` extends to `front + [x]`, with or without
      `x` itself. */
  lemma EmbedsSnoc<T>(a: seq<T>, front: seq<T>, x: T, idx: seq<nat>, keep: bool)
    requires Embeds(a, front, idx)
    ensures Embeds(a + (if keep then [x] else []), front + [x], idx + (if keep then [|front|] else []))
  {
    var b := front + [x];
    forall k | 0 <= k < |idx|
      ensures idx[k] < |front| && a[k] == b[idx[k]]
    {
    }
    if keep {
      var a', idx' := a + [x], idx + [|front|];
      forall k | 0 <= k < |idx'|
        ensures idx'[k] < |b| && a'[k] == b[idx'[k]]
      {
        if k < |idx| {
          assert idx'[k] == idx[k] && a'[k] == a[k];
        }
      }
    }
  }

  /** The positions `FilterIndices` picks are exactly those whose element
      satisfies `p`: with `FilterIndices` embedding the result, this
      determines `Filter(p, s)` completely. */
  lemma {:induction false} FilterIndicesExact<T>(p: T -> bool, s: seq<T>)
    ensures var idx := FilterIndices(p, s);
      forall i :: 0 <= i < |s| ==> (i in idx <==> p(s[i]))
  {
    if |s| > 0 {
      var front, last := s[..|s| - 1], s[|s| - 1];
      var idx' := FilterIndices(p, front);
      FilterIndicesExact(p, front);
      var idx := FilterIndices(p, s);
      assert idx == idx' + (if p(last) then [|s| - 1] else []);
      forall i | 0 <= i < |s|
        ensures i in idx <==> p(s[i])
      {
        if i < |s| - 1 {
          assert s[i] == front[i];
        } else {
          assert i !in idx';
        }
      }
    }
  }

  /** Filtering keeps the relative order of what it keeps. */
  lemma FilterIsSubsequence<T>(p: T -> bool, s: seq<T>)
    ensures IsSubsequence(Filter(p, s), s)
  {
    var idx := FilterIndices(p, s);
  }

  /** Filtering keeps only elements of `s` that satisfy `p`. */
  lemma {:induction false} FilterMembers<T>(p: T -> bool, s: seq<T>)
    ensures forall x :: x in Filter(p, s) ==> p(x) && x in s
  {
    if |s| > 0 {
      FilterMembers(p, s[..|s| - 1]);
    }
  }

  /** Filtering drops nothing that satisfies `p`. */
  lemma {:induction false} FilterKeeps<T>(p: T -> bool, s: seq<T>, i: nat)
    requires i < |s| && p(s[i])
    ensures s[i] in Filter(p, s)
  {
    if i < |s| - 1 {
      FilterKeeps(p, s[..|s| - 1], i);
    }
  }

  /** Filtering yields nothing exactly when no element satisfies `p`. */
  lemma FilterEmptyIff<T>(p: T -> bool, s: seq<T>)
    ensures Filter(p, s) == [] <==> forall i :: 0 <= i < |s| ==> !p(s[i])
  {
    if exists i :: 0 <= i < |s| && p(s[i]) {
      var i :| 0 <= i < |s| && p(s[i]);
      FilterKeeps(p, s, i);
    }
  }

  /** Filtering a sequence whose every element satisfies `p` changes nothing. */
  lemma {:induction false} FilterAllKept<T>(p: T -> bool, s: seq<T>)
    requires forall i :: 0 <= i < |s| ==> p(s[i])
    ensures Filter(p, s) == s
  {
    if |s| > 0 {
      FilterAllKept(p, s[..|s| - 1]);
      assert s[..|s| - 1] + [s[|s| - 1]] == s;
    }
  }

  lemma FilterIdempotent<T>(p: T -> bool, s: seq<T>)
    ensures Filter(p, Filter(p, s)) == Filter(p, s)
  {
    var r := Filter(p, s);
    FilterMembers(p, s);
    assert forall i :: 0 <= i < |r| ==> r[i] in r;
    FilterAllKept(p, r);
  }

  /** What `[f(x) for x in s if p(f(x))]` yields comes from an element of `s`. */
  lemma FilterMapSource<T, U>(p: U -> bool, f: T -> U, s: seq<T>, k: nat)
    requires k < |Filter(p, Map(f, s))|
    ensures exists j :: 0 <= j < |s| && Filter(p, Map(f, s))[k] == f(s[j]) && p(f(s[j]))
  {
    var m := Map(f, s);
    var x := Filter(p, m)[k];
    FilterMembers(p, m);
    assert x in Filter(p, m);
    var j :| 0 <= j < |m| && m[j] == x;
  }

  /** Mapping a function that fixes every element changes nothing. */
  lemma MapFixed<T>(f: T -> T, s: seq<T>)
    requires forall k :: 0 <= k < |s| ==> f(s[k]) == s[k]
    ensures Map(f, s) == s
  {
  }

  lemma MapSnoc<T, U>(f: T -> U, s: seq<T>, x: T)
    ensures Map(f, s + [x]) == Map(f, s) + [f(x)]
  {
  }

  /** One more element at the end: the step a filtering loop takes. */
  lemma FilterSnoc<T>(p: T -> bool, s: seq<T>, x: T)
    ensures Filter(p, s + [x]) == Filter(p, s) + (if p(x) then [x] else [])
  {
    assert (s + [x])[..|s|] == s;
  }
}
