/**
 * Python's `sorted` on lists of strings: strings are ordered by code
 * point, lexicographically, and the result is the unique sorted
 * permutation of the input. `SortedDistinct` is `sorted(set(xs))`.
 */
module Sorting {

  /** Python's `a < b` for strings. */
  predicate StrLess(a: string, b: string)
    decreases |a|
  {
    if a == [] then b != []
    else if b == [] then false
    else if a[0] != b[0] then a[0] < b[0]
    else StrLess(a[1..], b[1..])
  }

  predicate StrLeq(a: string, b: string)
  {
    a == b || StrLess(a, b)
  }

  lemma {:induction false} StrLessIrreflexive(a: string)
    ensures !StrLess(a, a)
  {
    if a != [] {
      StrLessIrreflexive(a[1..]);
    }
  }

  lemma {:induction false} StrLessTransitive(a: string, b: string, c: string)
    requires StrLess(a, b) && StrLess(b, c)
    ensures StrLess(a, c)
    decreases |a|
  {
    if a != [] && b != [] && c != [] && a[0] == b[0] && b[0] == c[0] {
      StrLessTransitive(a[1..], b[1..], c[1..]);
    }
  }

  lemma {:induction false} StrLessTotal(a: string, b: string)
    ensures a == b || StrLess(a, b) || StrLess(b, a)
    decreases |a|
  {
    if a != [] && b != [] && a[0] == b[0] {
      StrLessTotal(a[1..], b[1..]);
      if a[1..] == b[1..] {
        assert a == [a[0]] + a[1..] && b == [b[0]] + b[1..];
      }
    }
  }

  lemma StrLessAsymmetric(a: string, b: string)
    ensures !(StrLess(a, b) && StrLess(b, a))
  {
    if StrLess(a, b) && StrLess(b, a) {
      StrLessTransitive(a, b, a);
      StrLessIrreflexive(a);
    }
  }

  lemma StrLeqTransitive(a: string, b: string, c: string)
    requires StrLeq(a, b) && StrLeq(b, c)
    ensures StrLeq(a, c)
  {
    if a != b && b != c {
      StrLessTransitive(a, b, c);
    }
  }

  predicate Sorted(xs: seq<string>)
  {
    forall i, j :: 0 <= i < j < |xs| ==> StrLeq(xs[i], xs[j])
  }

  /** No element of `ys` is below `b`. */
  predicate AllAtLeast(b: string, ys: seq<string>)
  {
    forall j :: 0 <= j < |ys| ==> StrLeq(b, ys[j])
  }

  lemma AllAtLeastPermutation(b: string, ys: seq<string>, zs: seq<string>)
    requires AllAtLeast(b, ys) && multiset(zs) == multiset(ys)
    ensures AllAtLeast(b, zs)
  {
    forall j | 0 <= j < |zs|
      ensures StrLeq(b, zs[j])
    {
      assert zs[j] in multiset(ys);
      var k :| 0 <= k < |ys| && ys[k] == zs[j];
    }
  }

  lemma ConsSorted(y: string, ys: seq<string>)
    requires Sorted(ys) && AllAtLeast(y, ys)
    ensures Sorted([y] + ys)
  {
    var r := [y] + ys;
    forall i, j | 0 <= i < j < |r|
      ensures StrLeq(r[i], r[j])
    {
      if i == 0 {
        assert r[j] == ys[j - 1];
      } else {
        assert r[i] == ys[i - 1] && r[j] == ys[j - 1];
      }
    }
  }

  /** Inserts `x` into a sorted list. */
  function Insert(x: string, xs: seq<string>): (r: seq<string>)
    requires Sorted(xs)
    ensures Sorted(r)
    ensures multiset(r) == multiset(xs) + multiset{x}
  {
    if xs == [] then [x]
    else if StrLeq(x, xs[0]) then
      assert AllAtLeast(x, xs) by {
        forall j | 0 <= j < |xs|
          ensures StrLeq(x, xs[j])
        {
          StrLeqTransitive(x, xs[0], xs[j]);
        }
      }
      ConsSorted(x, xs);
      [x] + xs
    else
      var rest := Insert(x, xs[1..]);
      StrLessTotal(x, xs[0]);
      assert xs == [xs[0]] + xs[1..];
      AllAtLeastPermutation(xs[0], xs[1..] + [x], rest);
      ConsSorted(xs[0], rest);
      [xs[0]] + rest
  }

  /** `sorted(xs)`: insertion sort. */
  function Sort(xs: seq<string>): (r: seq<string>)
    ensures Sorted(r)
    ensures multiset(r) == multiset(xs)
  {
    if xs == [] then []
    else
      assert xs == [xs[0]] + xs[1..];
      Insert(xs[0], Sort(xs[1..]))
  }

  /** Two sorted permutations of each other start with the same element. */
  lemma SameHead(a: seq<string>, b: seq<string>)
    requires Sorted(a) && Sorted(b) && multiset(a) == multiset(b) && a != []
    ensures b != [] && a[0] == b[0]
  {
    assert a[0] in multiset(b);
    assert b != [];
    assert b[0] in multiset(a);
    var i :| 0 <= i < |b| && b[i] == a[0];
    var j :| 0 <= j < |a| && a[j] == b[0];
    assert StrLeq(b[0], a[0]) && StrLeq(a[0], b[0]);
    if a[0] != b[0] {
      StrLessAsymmetric(a[0], b[0]);
    }
  }

  /** Removing the same first element from two permutations of each other leaves permutations. */
  lemma SameTail(a: seq<string>, b: seq<string>)
    requires a != [] && b != [] && a[0] == b[0] && multiset(a) == multiset(b)
    ensures multiset(a[1..]) == multiset(b[1..])
  {
    assert a == [a[0]] + a[1..] && b == [b[0]] + b[1..];
    forall y
      ensures multiset(a[1..])[y] == multiset(b[1..])[y]
    {
      assert multiset(a)[y] == multiset{a[0]}[y] + multiset(a[1..])[y];
      assert multiset(b)[y] == multiset{b[0]}[y] + multiset(b[1..])[y];
    }
  }

  /** Two sorted lists with the same elements are equal: `Sort` is the only possible result of `sorted`. */
  lemma {:induction false} SortedUnique(a: seq<string>, b: seq<string>)
    requires Sorted(a) && Sorted(b) && multiset(a) == multiset(b)
    ensures a == b
    decreases |a|
  {
    if a == [] {
      assert |multiset(b)| == 0;
    } else {
      SameHead(a, b);
      SameTail(a, b);
      SortedUnique(a[1..], b[1..]);
      assert a == [a[0]] + a[1..] && b == [b[0]] + b[1..];
    }
  }

  predicate Distinct(xs: seq<string>)
  {
    forall i, j :: 0 <= i < j < |xs| ==> xs[i] != xs[j]
  }

  /** The distinct elements of `xs`, in the order of their first occurrence. */
  function Dedup(xs: seq<string>): (r: seq<string>)
    ensures Distinct(r)
    ensures forall y :: y in r <==> y in xs
  {
    if xs == [] then []
    else
      var rest := Dedup(xs[1..]);
      assert forall y :: y in xs <==> y == xs[0] || y in xs[1..];
      if xs[0] in rest then rest else [xs[0]] + rest
  }

  lemma {:induction false} DistinctMultisetIsSet(xs: seq<string>, y: string)
    requires Distinct(xs)
    ensures multiset(xs)[y] == if y in xs then 1 else 0
  {
    if xs != [] {
      assert xs == [xs[0]] + xs[1..];
      assert Distinct(xs[1..]);
      DistinctMultisetIsSet(xs[1..], y);
    }
  }

  lemma RepeatCounts(r: seq<string>, i: nat, j: nat)
    requires i < j < |r| && r[i] == r[j]
    ensures multiset(r)[r[i]] >= 2
  {
    assert r == r[..j] + r[j..];
    assert r[i] in r[..j];
    assert r[j] in r[j..];
  }

  /** A permutation of a list without repetitions has none either. */
  lemma DistinctPermutation(d: seq<string>, r: seq<string>)
    requires Distinct(d) && multiset(r) == multiset(d)
    ensures Distinct(r)
  {
    forall i, j | 0 <= i < j < |r|
      ensures r[i] != r[j]
    {
      if r[i] == r[j] {
        RepeatCounts(r, i, j);
        DistinctMultisetIsSet(d, r[i]);
      }
    }
  }

  /** `sorted(set(xs))`. */
  function SortedDistinct(xs: seq<string>): (r: seq<string>)
    ensures forall y :: y in r <==> y in xs
    ensures forall i, j :: 0 <= i < j < |r| ==> StrLess(r[i], r[j])
  {
    var d := Dedup(xs);
    var r := Sort(d);
    assert forall y :: y in r <==> y in d by {
      forall y
        ensures y in r <==> y in d
      {
        assert y in r <==> y in multiset(r);
      }
    }
    DistinctPermutation(d, r);
    r
  }

  /** A strictly increasing list is determined by its elements: whatever order `set` iterates in, the joined IP list is the same. */
  lemma StrictlySortedUnique(a: seq<string>, b: seq<string>)
    requires forall i, j :: 0 <= i < j < |a| ==> StrLess(a[i], a[j])
    requires forall i, j :: 0 <= i < j < |b| ==> StrLess(b[i], b[j])
    requires forall y :: y in a <==> y in b
    ensures a == b
  {
    assert Distinct(a) by {
      forall i, j | 0 <= i < j < |a|
        ensures a[i] != a[j]
      {
        StrLessIrreflexive(a[i]);
      }
    }
    assert Distinct(b) by {
      forall i, j | 0 <= i < j < |b|
        ensures b[i] != b[j]
      {
        StrLessIrreflexive(b[i]);
      }
    }
    forall y
      ensures multiset(a)[y] == multiset(b)[y]
    {
      DistinctMultisetIsSet(a, y);
      DistinctMultisetIsSet(b, y);
    }
    assert multiset(a) == multiset(b);
    SortedUnique(a, b);
  }
}
