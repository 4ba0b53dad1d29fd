/** The array helpers the source calls (`find`, `filter`), as functions over sequences. */
module Seqs {
  import opened Wrappers

  /** The index of the first element satisfying `p`, if any: the search behind `Find`. */
  function FindFirst<T>(xs: seq<T>, p: T -> bool): (r: Option<nat>)
    ensures r.Some? ==> r.value < |xs| && p(xs[r.value])
    ensures r.Some? ==> forall j :: 0 <= j < r.value ==> !p(xs[j])
    ensures r.None? <==> forall j :: 0 <= j < |xs| ==> !p(xs[j])
  {
    if |xs| == 0 then None
    else if p(xs[0]) then Some(0)
    else
      match FindFirst(xs[1..], p)
      case None => None
      case Some(k) => Some(k + 1)
  }

  /** `xs.find(p)`: the first element satisfying `p`, if any. */
  function Find<T>(xs: seq<T>, p: T -> bool): (r: Option<T>)
    ensures r.None? <==> forall j :: 0 <= j < |xs| ==> !p(xs[j])
    ensures r.Some? ==> exists k :: 0 <= k < |xs| && xs[k] == r.value && p(xs[k]) &&
                                    forall j :: 0 <= j < k ==> !p(xs[j])
  {
    match FindFirst(xs, p)
    case None => None
    case Some(k) => Some(xs[k])
  }

  /** `xs.filter(p)`: the elements satisfying `p`, in their original order. */
  function Filter<T>(xs: seq<T>, p: T -> bool): (r: seq<T>)
    ensures |r| <= |xs|
    ensures forall i :: 0 <= i < |r| ==> p(r[i])
    ensures forall i :: 0 <= i < |xs| && p(xs[i]) ==> xs[i] in r
    ensures multiset(r) <= multiset(xs)
    ensures forall i :: 0 <= i < |xs| ==> multiset(r)[xs[i]] == if p(xs[i]) then multiset(xs)[xs[i]] else 0
  {
    if |xs| == 0 then []
    else
      var rest := Filter(xs[1..], p);
      var r := if p(xs[0]) then [xs[0]] + rest else rest;
      FilterStepCounts(xs, p, rest, r);
      r
  }

  /** One step of `Filter`: keeping or dropping the head preserves the element counts the filter promises. */
  lemma FilterStepCounts<T>(xs: seq<T>, p: T -> bool, rest: seq<T>, r: seq<T>)
    requires |xs| > 0 && multiset(rest) <= multiset(xs[1..])
    requires forall i :: 0 <= i < |xs[1..]| ==>
      multiset(rest)[xs[1..][i]] == if p(xs[1..][i]) then multiset(xs[1..])[xs[1..][i]] else 0
    requires |rest| <= |xs[1..]| && forall i :: 0 <= i < |rest| ==> p(rest[i])
    requires r == if p(xs[0]) then [xs[0]] + rest else rest
    ensures |r| <= |xs| && forall i :: 0 <= i < |r| ==> p(r[i])
    ensures multiset(r) <= multiset(xs)
    ensures forall i :: 0 <= i < |xs| ==> multiset(r)[xs[i]] == if p(xs[i]) then multiset(xs)[xs[i]] else 0
  {
    assert xs == [xs[0]] + xs[1..];
    assert multiset(xs) == multiset{xs[0]} + multiset(xs[1..]);
    assert forall i :: 0 < i < |r| && p(xs[0]) ==> r[i] == rest[i - 1];
    forall i | 0 <= i < |xs|
      ensures multiset(r)[xs[i]] == if p(xs[i]) then multiset(xs)[xs[i]] else 0
    {
      if i > 0 {
        assert xs[i] == xs[1..][i - 1];
      } else if xs[0] !in multiset(xs[1..]) {
        assert multiset(rest)[xs[0]] == 0;
      } else {
        var j :| 0 <= j < |xs[1..]| && xs[1..][j] == xs[0];
      }
    }
  }

  /** Filtering a single element keeps it iff it satisfies `p`. */
  lemma FilterSingleton<T>(x: T, p: T -> bool)
    ensures Filter([x], p) == if p(x) then [x] else []
  {
    assert [x][1..] == [];
  }

  /** Filtering distributes over concatenation, so it keeps the relative order of what it keeps. */
  lemma {:induction false} FilterAppend<T>(a: seq<T>, b: seq<T>, p: T -> bool)
    ensures Filter(a + b, p) == Filter(a, p) + Filter(b, p)
  {
    if |a| == 0 {
      assert a + b == b;
    } else {
      assert (a + b)[1..] == a[1..] + b;
      FilterAppend(a[1..], b, p);
    }
  }

  /** When every element satisfies exactly one of `p` and `q`, the two filters split the sequence. */
  lemma {:induction false} FilterSplit<T>(xs: seq<T>, p: T -> bool, q: T -> bool)
    requires forall i :: 0 <= i < |xs| ==> p(xs[i]) != q(xs[i])
    ensures |Filter(xs, p)| + |Filter(xs, q)| == |xs|
  {
    if |xs| > 0 {
      FilterSplit(xs[1..], p, q);
    }
  }
}
