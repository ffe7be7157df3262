/**
 * `std::sort` and `std::unique` as the catalogue uses them: sorting a
 * copy of a vector by a strict total order (`<` on stop handles,
 * `operator<` on route names) and counting the runs of equal elements
 * that `std::unique` keeps one of.
 *
 * The library's algorithm is not part of this model; a sort is any
 * function returning a sorted permutation, and `SortedPermutationUnique`
 * shows that for a strict total order there is only one such result, so
 * the insertion sort below yields exactly what `std::sort` yields.
 */
module Sorting {

  ghost predicate StrictTotalOrder<T(!new)>(lt: (T, T) -> bool) {
    && (forall a :: !lt(a, a))
    && (forall a, b, c :: lt(a, b) && lt(b, c) ==> lt(a, c))
    && (forall a, b :: a != b ==> lt(a, b) || lt(b, a))
  }

  /** No element is smaller than one before it. */
  ghost predicate SortedBy<T>(s: seq<T>, lt: (T, T) -> bool) {
    forall i, j :: 0 <= i < j < |s| ==> !lt(s[j], s[i])
  }

  /** Insert `x` in front of the first element not smaller than it. */
  function Insert<T>(x: T, s: seq<T>, lt: (T, T) -> bool): (r: seq<T>)
    ensures multiset(r) == multiset(s) + multiset{x}
    ensures |r| == |s| + 1
  {
    if s == [] || !lt(s[0], x) then [x] + s
    else
      assert s == [s[0]] + s[1..];
      [s[0]] + Insert(x, s[1..], lt)
  }

  lemma {:induction false} InsertSorted<T(!new)>(x: T, s: seq<T>, lt: (T, T) -> bool)
    requires StrictTotalOrder(lt) && SortedBy(s, lt)
    ensures SortedBy(Insert(x, s, lt), lt)
    decreases |s|
  {
    if s == [] || !lt(s[0], x) {
    } else {
      var tail := Insert(x, s[1..], lt);
      InsertSorted(x, s[1..], lt);
      assert multiset(tail) == multiset(s[1..]) + multiset{x};
      forall j | 0 <= j < |tail|
        ensures !lt(tail[j], s[0])
      {
        assert tail[j] in multiset(tail);
        if tail[j] == x {
        } else {
          assert tail[j] in multiset(s[1..]);
          var k :| 0 <= k < |s[1..]| && s[1..][k] == tail[j];
          assert s[k + 1] == tail[j];
        }
      }
    }
  }

  /** Insertion sort: a sorted permutation of `s`. */
  function Sort<T>(s: seq<T>, lt: (T, T) -> bool): (r: seq<T>)
    ensures multiset(r) == multiset(s)
    ensures |r| == |s|
  {
    if s == [] then []
    else
      assert s == [s[0]] + s[1..];
      Insert(s[0], Sort(s[1..], lt), lt)
  }

  lemma {:induction false} SortSorted<T(!new)>(s: seq<T>, lt: (T, T) -> bool)
    requires StrictTotalOrder(lt)
    ensures SortedBy(Sort(s, lt), lt)
    decreases |s|
  {
    if s != [] {
      SortSorted(s[1..], lt);
      InsertSorted(s[0], Sort(s[1..], lt), lt);
    }
  }

  /** The first element of a sorted sequence is not above any of its elements. */
  lemma {:induction false} HeadIsLeast<T(!new)>(a: seq<T>, x: T, lt: (T, T) -> bool)
    requires StrictTotalOrder(lt) && SortedBy(a, lt) && x in multiset(a)
    ensures a != [] && !lt(x, a[0])
  {
    var k :| 0 <= k < |a| && a[k] == x;
    assert k == 0 || !lt(a[k], a[0]);
  }

  /** Two sorted permutations of the same elements are the same sequence. */
  lemma {:induction false} SortedPermutationUnique<T(!new)>(a: seq<T>, b: seq<T>, lt: (T, T) -> bool)
    requires StrictTotalOrder(lt)
    requires SortedBy(a, lt) && SortedBy(b, lt)
    requires multiset(a) == multiset(b)
    ensures a == b
    decreases |a|
  {
    if a == [] {
      assert |b| == |multiset(b)| == 0;
    } else {
      assert a[0] in multiset(a);
      HeadIsLeast(b, a[0], lt);
      HeadIsLeast(a, b[0], lt);
      assert a[0] == b[0];
      assert a == [a[0]] + a[1..] && b == [b[0]] + b[1..];
      assert multiset(a[1..]) == multiset(b[1..]) by {
        var ma, mb := multiset(a[1..]), multiset(b[1..]);
        assert multiset(a) == multiset{a[0]} + ma;
        assert multiset(b) == multiset{a[0]} + mb;
        forall y ensures ma[y] == mb[y] {
          assert multiset(a)[y] == multiset{a[0]}[y] + ma[y];
          assert multiset(b)[y] == multiset{a[0]}[y] + mb[y];
        }
      }
      SortedPermutationUnique(a[1..], b[1..], lt);
    }
  }

  /** The number of runs of equal adjacent elements: what `std::unique` keeps. */
  function RunCount<T(==)>(t: seq<T>): nat {
    if |t| <= 1 then |t|
    else (if t[0] == t[1] then 0 else 1) + RunCount(t[1..])
  }

  /** In a sorted sequence the runs are the distinct elements. */
  lemma {:induction false} RunCountDistinct<T(!new)>(t: seq<T>, lt: (T, T) -> bool)
    requires StrictTotalOrder(lt) && SortedBy(t, lt)
    ensures RunCount(t) == |set x | x in t|
    decreases |t|
  {
    if |t| == 0 {
      assert (set x | x in t) == {};
    } else if |t| == 1 {
      assert (set x | x in t) == {t[0]};
    } else {
      var rest := t[1..];
      SortedTail(t, lt);
      RunCountDistinct(rest, lt);
      ElementsOfCons(t);
      if t[0] == t[1] {
        assert t[0] in (set x | x in rest) by { assert rest[0] == t[0]; }
        assert {t[0]} + (set x | x in rest) == (set x | x in rest);
      } else {
        HeadNotInTail(t, lt);
      }
    }
  }

  lemma {:induction false} SortedTail<T>(t: seq<T>, lt: (T, T) -> bool)
    requires t != [] && SortedBy(t, lt)
    ensures SortedBy(t[1..], lt)
  {
    forall i, j | 0 <= i < j < |t| - 1
      ensures !lt(t[1..][j], t[1..][i])
    {
      assert t[1..][j] == t[j + 1] && t[1..][i] == t[i + 1];
    }
  }

  lemma {:induction false} ElementsOfCons<T>(t: seq<T>)
    requires t != []
    ensures (set x | x in t) == {t[0]} + (set x | x in t[1..])
  {
    assert t == [t[0]] + t[1..];
  }

  /** In a sorted sequence whose first two elements differ, the first occurs only once. */
  lemma {:induction false} HeadNotInTail<T(!new)>(t: seq<T>, lt: (T, T) -> bool)
    requires StrictTotalOrder(lt) && |t| >= 2 && t[0] != t[1] && SortedBy(t, lt)
    ensures t[0] !in (set x | x in t[1..])
  {
    assert !lt(t[1], t[0]);
    assert lt(t[0], t[1]);
    forall i | 1 <= i < |t|
      ensures t[i] != t[0]
    {
      if i > 1 {
        assert !lt(t[i], t[1]);
      }
    }
    assert forall x :: x in t[1..] ==> x != t[0];
  }
}
