/** `Array.prototype.sort` with a comparator, modelled as a stable insertion sort over a
    strict "comes before" relation, with the facts the core needs about it: it permutes
    its input, it sorts whenever the relation is a strict total order, and then its
    result does not depend on the order of the input. */
module Sorting {

  /** No later element comes strictly before an earlier one. */
  predicate SortedBy<T>(s: seq<T>, less: (T, T) -> bool) {
    forall i, j :: 0 <= i < j < |s| ==> !less(s[j], s[i])
  }

  /** `less` is irreflexive, transitive and total on the distinct members of `xs`. */
  predicate StrictTotalOn<T>(less: (T, T) -> bool, xs: set<T>) {
    (forall x :: x in xs ==> !less(x, x)) &&
    (forall x, y, z :: x in xs && y in xs && z in xs && less(x, y) && less(y, z) ==> less(x, z)) &&
    (forall x, y :: x in xs && y in xs ==> x == y || less(x, y) || less(y, x))
  }

  /** Places `x` before the first element that does not come strictly before it, so
      that an element equal to `x` under `less` keeps `x` in front of it. */
  function Insert<T>(x: T, s: seq<T>, less: (T, T) -> bool): (r: seq<T>)
    ensures multiset(r) == multiset(s) + multiset{x}
  {
    if s == [] || !less(s[0], x) then [x] + s
    else
      assert s == [s[0]] + s[1..];
      [s[0]] + Insert(x, s[1..], less)
  }

  /** The stable sort of `s` under `less`. */
  function SortBy<T>(s: seq<T>, less: (T, T) -> bool): (r: seq<T>)
    ensures multiset(r) == multiset(s)
    ensures |r| == |s|
  {
    if s == [] then []
    else
      assert s == [s[0]] + s[1..];
      Insert(s[0], SortBy(s[1..], less), less)
  }

  lemma InsertSorted<T>(x: T, s: seq<T>, less: (T, T) -> bool, xs: set<T>)
    requires StrictTotalOn(less, xs)
    requires x in xs && forall i :: 0 <= i < |s| ==> s[i] in xs
    requires SortedBy(s, less)
    ensures SortedBy(Insert(x, s, less), less)
  {
    if s == [] {
    } else if !less(s[0], x) {
      assert x == s[0] || less(x, s[0]);
    } else {
      InsertSorted(x, s[1..], less, xs);
      var r := Insert(x, s[1..], less);
      forall j | 0 <= j < |r|
        ensures !less(r[j], s[0])
      {
        assert r[j] in multiset(r);
        assert r[j] in multiset(s[1..]) + multiset{x};
        if r[j] in multiset(s[1..]) {
          var k :| 0 <= k < |s[1..]| && s[1..][k] == r[j];
          assert s[k + 1] == r[j];
        }
      }
    }
  }

  /** Under a strict total order the stable sort sorts. */
  lemma SortBySorted<T>(s: seq<T>, less: (T, T) -> bool, xs: set<T>)
    requires StrictTotalOn(less, xs)
    requires forall i :: 0 <= i < |s| ==> s[i] in xs
    ensures SortedBy(SortBy(s, less), less)
  {
    if s != [] {
      SortBySorted(s[1..], less, xs);
      var t := SortBy(s[1..], less);
      forall i | 0 <= i < |t|
        ensures t[i] in xs
      {
        assert t[i] in multiset(s[1..]);
        var k :| 0 <= k < |s[1..]| && s[1..][k] == t[i];
      }
      InsertSorted(s[0], t, less, xs);
    }
  }

  lemma MultisetTail<T>(a: seq<T>)
    requires a != []
    ensures multiset(a[1..]) == multiset(a) - multiset{a[0]}
  {
    assert a == [a[0]] + a[1..];
  }

  /** Sorted arrangements of the same elements start with the same element. */
  lemma SortedHeads<T>(a: seq<T>, b: seq<T>, less: (T, T) -> bool, xs: set<T>)
    requires StrictTotalOn(less, xs)
    requires a != [] && a[0] in xs && b != [] && b[0] in xs
    requires multiset(a) == multiset(b)
    requires SortedBy(a, less) && SortedBy(b, less)
    ensures a[0] == b[0]
  {
    assert a[0] in multiset(b);
    var k :| 0 <= k < |b| && b[k] == a[0];
    assert b[0] in multiset(a);
    var m :| 0 <= m < |a| && a[m] == b[0];
  }

  /** Two sorted arrangements of the same elements under a strict total order are equal. */
  lemma {:induction false} SortedUnique<T>(a: seq<T>, b: seq<T>, less: (T, T) -> bool, xs: set<T>)
    requires StrictTotalOn(less, xs)
    requires forall i :: 0 <= i < |a| ==> a[i] in xs
    requires multiset(a) == multiset(b)
    requires SortedBy(a, less) && SortedBy(b, less)
    ensures a == b
    decreases |a|
  {
    assert |a| == |multiset(a)| == |multiset(b)| == |b|;
    if a != [] {
      assert b[0] in multiset(a);
      SortedHeads(a, b, less, xs);
      MultisetTail(a);
      MultisetTail(b);
      SortedTail(a, less);
      SortedTail(b, less);
      assert forall i :: 0 <= i < |a[1..]| ==> a[1..][i] == a[i + 1];
      SortedUnique(a[1..], b[1..], less, xs);
      SameHeadAndTail(a, b);
    }
  }

  lemma SameHeadAndTail<T>(a: seq<T>, b: seq<T>)
    requires a != [] && b != [] && a[0] == b[0] && a[1..] == b[1..]
    ensures a == b
  {
    assert a == [a[0]] + a[1..] && b == [b[0]] + b[1..];
  }

  lemma SortedTail<T>(a: seq<T>, less: (T, T) -> bool)
    requires a != [] && SortedBy(a, less)
    ensures SortedBy(a[1..], less)
  {
    forall i, j | 0 <= i < j < |a[1..]|
      ensures !less(a[1..][j], a[1..][i])
    {
      assert a[1..][j] == a[j + 1] && a[1..][i] == a[i + 1];
    }
  }

  /** Under a strict total order the sorted result depends only on which elements are
      sorted, not on the order in which they arrive. */
  lemma SortByOrderIndependent<T>(s: seq<T>, t: seq<T>, less: (T, T) -> bool, xs: set<T>)
    requires StrictTotalOn(less, xs)
    requires forall i :: 0 <= i < |s| ==> s[i] in xs
    requires multiset(s) == multiset(t)
    ensures SortBy(s, less) == SortBy(t, less)
  {
    forall i | 0 <= i < |t|
      ensures t[i] in xs
    {
      assert t[i] in multiset(s);
    }
    SortBySorted(s, less, xs);
    SortBySorted(t, less, xs);
    var a := SortBy(s, less);
    forall i | 0 <= i < |a|
      ensures a[i] in xs
    {
      assert a[i] in multiset(s);
    }
    SortedUnique(a, SortBy(t, less), less, xs);
  }

  /** The elements of a sequence, as a set. */
  function Elements<T>(s: seq<T>): (r: set<T>)
    ensures forall i :: 0 <= i < |s| ==> s[i] in r
    ensures forall x :: x in r ==> x in s
  {
    set x | x in s
  }

  predicate Distinct<T(==)>(s: seq<T>) {
    forall i, j :: 0 <= i < j < |s| ==> s[i] != s[j]
  }

  lemma {:induction false} DistinctCount<T>(s: seq<T>, x: T)
    requires Distinct(s)
    ensures multiset(s)[x] <= 1
    decreases |s|
  {
    if s != [] {
      assert s == [s[0]] + s[1..];
      assert Distinct(s[1..]) by {
        forall i, j | 0 <= i < j < |s[1..]|
          ensures s[1..][i] != s[1..][j]
        {
          assert s[1..][i] == s[i + 1] && s[1..][j] == s[j + 1];
        }
      }
      DistinctCount(s[1..], x);
      if s[0] == x {
        assert x !in s[1..];
      }
    }
  }

  /** Two sequences without repetitions that hold the same elements are rearrangements
      of each other. */
  lemma DistinctSameElements<T>(a: seq<T>, b: seq<T>)
    requires Distinct(a) && Distinct(b)
    requires forall x :: x in a <==> x in b
    ensures multiset(a) == multiset(b)
  {
    forall x
      ensures multiset(a)[x] == multiset(b)[x]
    {
      DistinctCount(a, x);
      DistinctCount(b, x);
      if x in a {
        assert x in multiset(a) && x in multiset(b);
      } else {
        assert x !in multiset(a) && x !in multiset(b);
      }
    }
  }

  /** A rearrangement of a sequence without repetitions has none either. */
  lemma DistinctPermutation<T>(a: seq<T>, b: seq<T>)
    requires Distinct(a) && multiset(a) == multiset(b)
    ensures Distinct(b)
  {
    forall i, j | 0 <= i < j < |b|
      ensures b[i] != b[j]
    {
      if b[i] == b[j] {
        assert b == b[..j] + b[j..];
        assert b[i] in multiset(b[..j]);
        assert b[j] in multiset(b[j..]);
        assert multiset(b)[b[i]] >= 2;
        DistinctCount(a, b[i]);
      }
    }
  }

  lemma DistinctAppend<T>(a: seq<T>, b: seq<T>)
    requires Distinct(a) && Distinct(b)
    requires forall x :: x in b ==> x !in a
    ensures Distinct(a + b)
  {
    forall i, j | 0 <= i < j < |a + b|
      ensures (a + b)[i] != (a + b)[j]
    {
      if i < |a| && j >= |a| {
        assert (a + b)[j] == b[j - |a|] && b[j - |a|] in b;
        assert (a + b)[i] == a[i] && a[i] in a;
      }
    }
  }
}
