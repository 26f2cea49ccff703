/** Grouping a sequence into buckets by a key and laying the sorted buckets out one after
    the other in a given key order.  The position assignment of image files is this
    arrangement with the image role as key and the bucket comparator as order; the facts
    here are stated for any key and any comparator so that they hold independently of how
    a role is parsed. */
module Grouping {
  import opened Sorting

  /** The elements of `xs` whose key is `k`, in input order. */
  function Bucket<T(==,!new), K(==,!new)>(xs: seq<T>, key: T -> K, k: K): (b: seq<T>)
    ensures |b| <= |xs|
    ensures forall i :: 0 <= i < |b| ==> key(b[i]) == k && b[i] in xs
  {
    if xs == [] then []
    else
      var last := xs[|xs| - 1];
      Bucket(xs[..|xs| - 1], key, k) + (if key(last) == k then [last] else [])
  }

  lemma BucketSnoc<T(!new), K(!new)>(xs: seq<T>, x: T, key: T -> K, k: K)
    ensures Bucket(xs + [x], key, k) == Bucket(xs, key, k) + (if key(x) == k then [x] else [])
  {
    assert (xs + [x])[..|xs|] == xs;
  }

  /** A bucket holds every copy of the elements with its key and nothing else. */
  lemma {:induction false} BucketCount<T(!new), K(!new)>(xs: seq<T>, key: T -> K, k: K, x: T)
    ensures multiset(Bucket(xs, key, k))[x] == if key(x) == k then multiset(xs)[x] else 0
    decreases |xs|
  {
    if xs != [] {
      var pre := xs[..|xs| - 1];
      assert xs == pre + [xs[|xs| - 1]];
      BucketCount(pre, key, k, x);
    }
  }

  lemma BucketMember<T(!new), K(!new)>(xs: seq<T>, key: T -> K, i: nat)
    requires i < |xs|
    ensures xs[i] in Bucket(xs, key, key(xs[i]))
  {
    BucketCount(xs, key, key(xs[i]), xs[i]);
  }

  /** Rearranging the input rearranges every bucket. */
  lemma BucketsAgree<T(!new), K(!new)>(xs: seq<T>, ys: seq<T>, key: T -> K, k: K)
    requires multiset(xs) == multiset(ys)
    ensures multiset(Bucket(xs, key, k)) == multiset(Bucket(ys, key, k))
  {
    forall x
      ensures multiset(Bucket(xs, key, k))[x] == multiset(Bucket(ys, key, k))[x]
    {
      BucketCount(xs, key, k, x);
      BucketCount(ys, key, k, x);
    }
  }

  /** The keys of `xs` in order of first appearance: the key order of an insertion-ordered
      map filled from `xs`. */
  function KeysOf<T(==,!new), K(==,!new)>(xs: seq<T>, key: T -> K): (r: seq<K>)
    ensures Distinct(r)
    ensures forall k :: k in r <==> Bucket(xs, key, k) != []
  {
    if xs == [] then []
    else
      var r := KeysOf(xs[..|xs| - 1], key);
      var k := key(xs[|xs| - 1]);
      if k in r then r else r + [k]
  }

  /** The keys are exactly the keys of the elements. */
  lemma KeysOfMembers<T(!new), K(!new)>(xs: seq<T>, key: T -> K)
    ensures forall i :: 0 <= i < |xs| ==> key(xs[i]) in KeysOf(xs, key)
    ensures forall k :: k in KeysOf(xs, key) ==> exists x :: x in xs && key(x) == k
  {
    forall i | 0 <= i < |xs|
      ensures key(xs[i]) in KeysOf(xs, key)
    {
      BucketMember(xs, key, i);
    }
    forall k | k in KeysOf(xs, key)
      ensures exists x :: x in xs && key(x) == k
    {
      var b := Bucket(xs, key, k);
      assert key(b[0]) == k && b[0] in xs;
    }
  }

  /** Rearranging the input does not change which keys occur. */
  lemma KeysOfAgree<T(!new), K(!new)>(xs: seq<T>, ys: seq<T>, key: T -> K)
    requires multiset(xs) == multiset(ys)
    ensures forall k :: k in KeysOf(xs, key) <==> k in KeysOf(ys, key)
  {
    forall k
      ensures k in KeysOf(xs, key) <==> k in KeysOf(ys, key)
    {
      BucketsAgree(xs, ys, key, k);
      assert |multiset(Bucket(xs, key, k))| == |Bucket(xs, key, k)|;
      assert |multiset(Bucket(ys, key, k))| == |Bucket(ys, key, k)|;
    }
  }

  /** Fills an insertion-ordered map from key to elements, one element at a time: the map
      holds the bucket of every key that occurs, and `keys` lists the map's keys in
      insertion order. */
  method GroupBy<T(==,!new), K(==,!new)>(xs: seq<T>, key: T -> K) returns (grouped: map<K, seq<T>>, keys: seq<K>)
    ensures keys == KeysOf(xs, key)
    ensures forall k :: k in grouped <==> k in keys
    ensures forall k :: k in grouped ==> grouped[k] == Bucket(xs, key, k)
  {
    grouped := map[];
    keys := [];
    for i := 0 to |xs|
      invariant keys == KeysOf(xs[..i], key)
      invariant forall k :: k in grouped <==> k in keys
      invariant forall k :: k in grouped ==> grouped[k] == Bucket(xs[..i], key, k)
    {
      assert xs[..i + 1][..i] == xs[..i];
      var k := key(xs[i]);
      if k !in grouped {
        grouped := grouped[k := []];
        keys := keys + [k];
      }
      grouped := grouped[k := grouped[k] + [xs[i]]];
    }
    assert xs[..|xs|] == xs;
  }

  lemma TakeSnoc<T>(s: seq<T>, k: nat)
    requires k < |s|
    ensures s[..k + 1] == s[..k] + [s[k]]
  {
  }

  /** Pairs every element of a bucket with the bucket's key. */
  function Tag<T, K>(bucket: seq<T>, k: K): (t: seq<(T, K)>)
    ensures |t| == |bucket|
    ensures forall j :: 0 <= j < |t| ==> t[j] == (bucket[j], k)
  {
    seq(|bucket|, j requires 0 <= j < |bucket| => (bucket[j], k))
  }

  /** The sorted, tagged bucket of one key. */
  function Piece<T(==,!new), K(==,!new)>(k: K, xs: seq<T>, key: T -> K, less: (T, T) -> bool): seq<(T, K)> {
    Tag(SortBy(Bucket(xs, key, k), less), k)
  }

  /** The buckets of `keys`, each sorted by `less`, one after the other. */
  function Arrange<T(==,!new), K(==,!new)>(keys: seq<K>, xs: seq<T>, key: T -> K, less: (T, T) -> bool): seq<(T, K)> {
    if keys == [] then []
    else Piece(keys[0], xs, key, less) + Arrange(keys[1..], xs, key, less)
  }

  lemma {:induction false} ArrangeSnoc<T(!new), K(!new)>(keys: seq<K>, k: K, xs: seq<T>, key: T -> K, less: (T, T) -> bool)
    ensures Arrange(keys + [k], xs, key, less) == Arrange(keys, xs, key, less) + Piece(k, xs, key, less)
    decreases |keys|
  {
    if keys == [] {
      assert keys + [k] == [k] && [k][1..] == [];
    } else {
      ArrangeSnoc(keys[1..], k, xs, key, less);
      ArrangeSnocStep(keys, k, xs, key, less);
    }
  }

  lemma ArrangeSnocStep<T(!new), K(!new)>(keys: seq<K>, k: K, xs: seq<T>, key: T -> K, less: (T, T) -> bool)
    requires keys != []
    requires Arrange(keys[1..] + [k], xs, key, less) == Arrange(keys[1..], xs, key, less) + Piece(k, xs, key, less)
    ensures Arrange(keys + [k], xs, key, less) == Arrange(keys, xs, key, less) + Piece(k, xs, key, less)
  {
    var ks := keys + [k];
    SnocParts(keys, k);
    ArrangeHead(ks, xs, key, less);
    ArrangeHead(keys, xs, key, less);
    JoinStep(Arrange(ks, xs, key, less), Arrange(keys, xs, key, less), Piece(keys[0], xs, key, less),
             Arrange(keys[1..], xs, key, less), Piece(k, xs, key, less), Arrange(ks[1..], xs, key, less));
  }

  lemma SnocParts<K>(keys: seq<K>, k: K)
    requires keys != []
    ensures (keys + [k])[0] == keys[0] && (keys + [k])[1..] == keys[1..] + [k]
  {
  }

  /** `h + (a + t)` is `(h + a) + t`, spelled out over named parts. */
  lemma JoinStep<X>(whole: seq<X>, left: seq<X>, h: seq<X>, a: seq<X>, t: seq<X>, rest: seq<X>)
    requires whole == h + rest && rest == a + t && left == h + a
    ensures whole == left + t
  {
  }

  lemma ArrangeHead<T(!new), K(!new)>(keys: seq<K>, xs: seq<T>, key: T -> K, less: (T, T) -> bool)
    requires keys != []
    ensures Arrange(keys, xs, key, less) == Piece(keys[0], xs, key, less) + Arrange(keys[1..], xs, key, less)
  {
  }

  /** The elements of an arrangement, without their keys. */
  function Firsts<T, K>(p: seq<(T, K)>): (r: seq<T>)
    ensures |r| == |p| && forall i :: 0 <= i < |p| ==> r[i] == p[i].0
  {
    seq(|p|, i requires 0 <= i < |p| => p[i].0)
  }

  lemma FirstsAppend<T, K>(a: seq<(T, K)>, b: seq<(T, K)>)
    ensures Firsts(a + b) == Firsts(a) + Firsts(b)
  {
  }

  lemma FirstsTag<T, K>(s: seq<T>, k: K)
    ensures Firsts(Tag(s, k)) == s
  {
  }

  /** The unsorted buckets of `keys`, one after the other. */
  function Gather<T(==,!new), K(==,!new)>(keys: seq<K>, xs: seq<T>, key: T -> K): seq<T> {
    if keys == [] then [] else Bucket(xs, key, keys[0]) + Gather(keys[1..], xs, key)
  }

  lemma {:induction false} ArrangeFirsts<T(!new), K(!new)>(keys: seq<K>, xs: seq<T>, key: T -> K, less: (T, T) -> bool)
    ensures multiset(Firsts(Arrange(keys, xs, key, less))) == multiset(Gather(keys, xs, key))
    decreases |keys|
  {
    if keys != [] {
      var s := SortBy(Bucket(xs, key, keys[0]), less);
      var rest := Arrange(keys[1..], xs, key, less);
      ArrangeFirsts(keys[1..], xs, key, less);
      FirstsAppend(Tag(s, keys[0]), rest);
      FirstsTag(s, keys[0]);
    }
  }

  /** Dropping the head of a sequence without repetitions. */
  lemma DistinctTail<T>(s: seq<T>)
    requires Distinct(s) && s != []
    ensures Distinct(s[1..]) && s[0] !in s[1..]
  {
    forall i, j | 0 <= i < j < |s[1..]|
      ensures s[1..][i] != s[1..][j]
    {
      assert s[1..][i] == s[i + 1] && s[1..][j] == s[j + 1];
    }
    forall i | 0 <= i < |s[1..]|
      ensures s[1..][i] != s[0]
    {
      assert s[1..][i] == s[i + 1];
    }
  }

  /** Buckets over distinct keys hold every element whose key is among them, once. */
  lemma {:induction false} GatherCount<T(!new), K(!new)>(keys: seq<K>, xs: seq<T>, key: T -> K, x: T)
    requires Distinct(keys)
    ensures multiset(Gather(keys, xs, key))[x] == if key(x) in keys then multiset(xs)[x] else 0
    decreases |keys|
  {
    if keys != [] {
      DistinctTail(keys);
      BucketCount(xs, key, keys[0], x);
      GatherCount(keys[1..], xs, key, x);
      assert key(x) in keys <==> key(x) == keys[0] || key(x) in keys[1..];
    }
  }

  /** Over distinct keys that cover every element's key, the arrangement holds each input
      element exactly as often as the input does. */
  lemma ArrangePermutation<T(!new), K(!new)>(keys: seq<K>, xs: seq<T>, key: T -> K, less: (T, T) -> bool)
    requires Distinct(keys)
    requires forall i :: 0 <= i < |xs| ==> key(xs[i]) in keys
    ensures multiset(Firsts(Arrange(keys, xs, key, less))) == multiset(xs)
    ensures |Arrange(keys, xs, key, less)| == |xs|
  {
    ArrangeFirsts(keys, xs, key, less);
    forall x
      ensures multiset(Gather(keys, xs, key))[x] == multiset(xs)[x]
    {
      GatherCount(keys, xs, key, x);
      if x in xs {
        var i :| 0 <= i < |xs| && xs[i] == x;
      }
    }
    assert multiset(Gather(keys, xs, key)) == multiset(xs);
    assert |Firsts(Arrange(keys, xs, key, less))| == |multiset(xs)|;
  }

  /** Every element of a sorted bucket has the bucket's key and comes from the input. */
  lemma SortedBucketMembers<T(!new), K(!new)>(xs: seq<T>, key: T -> K, k: K, less: (T, T) -> bool)
    ensures forall j :: 0 <= j < |SortBy(Bucket(xs, key, k), less)| ==>
      key(SortBy(Bucket(xs, key, k), less)[j]) == k && SortBy(Bucket(xs, key, k), less)[j] in xs
  {
    var b := Bucket(xs, key, k);
    var s := SortBy(b, less);
    forall j | 0 <= j < |s|
      ensures key(s[j]) == k && s[j] in xs
    {
      assert s[j] in multiset(b);
      var m :| 0 <= m < |b| && b[m] == s[j];
    }
  }

  /** Every placed element carries its own key, which is one of `keys`, and comes from the input. */
  lemma {:induction false} ArrangeTags<T(!new), K(!new)>(keys: seq<K>, xs: seq<T>, key: T -> K, less: (T, T) -> bool)
    ensures forall i :: 0 <= i < |Arrange(keys, xs, key, less)| ==>
      Arrange(keys, xs, key, less)[i].1 in keys && key(Arrange(keys, xs, key, less)[i].0) == Arrange(keys, xs, key, less)[i].1 &&
      Arrange(keys, xs, key, less)[i].0 in xs
    decreases |keys|
  {
    if keys != [] {
      var s := SortBy(Bucket(xs, key, keys[0]), less);
      var t := Tag(s, keys[0]);
      var rest := Arrange(keys[1..], xs, key, less);
      var p := Arrange(keys, xs, key, less);
      assert p == t + rest;
      ArrangeTags(keys[1..], xs, key, less);
      SortedBucketMembers(xs, key, keys[0], less);
      forall i | 0 <= i < |p|
        ensures p[i].1 in keys && key(p[i].0) == p[i].1 && p[i].0 in xs
      {
        if i < |t| {
          assert p[i] == (s[i], keys[0]);
        } else {
          assert p[i] == rest[i - |t|];
          assert rest[i - |t|].1 in keys[1..];
        }
      }
    }
  }

  /** The position of the first occurrence of `k` in `s`. */
  function IndexIn<K(==,!new)>(s: seq<K>, k: K): (r: nat)
    requires k in s
    ensures r < |s| && s[r] == k
    ensures forall j :: 0 <= j < r ==> s[j] != k
  {
    if s[0] == k then 0 else 1 + IndexIn(s[1..], k)
  }

  lemma IndexInTail<K(!new)>(s: seq<K>, k: K)
    requires s != [] && k in s[1..] && k != s[0]
    ensures IndexIn(s, k) == 1 + IndexIn(s[1..], k)
  {
  }

  lemma {:induction false} IndexInAppend<K(!new)>(a: seq<K>, b: seq<K>, k: K)
    requires k in a + b
    ensures k in a ==> IndexIn(a + b, k) == IndexIn(a, k)
    ensures k !in a ==> k in b && IndexIn(a + b, k) == |a| + IndexIn(b, k)
    decreases |a|
  {
    if a == [] {
      assert a + b == b;
    } else {
      assert (a + b)[0] == a[0];
      if a[0] != k {
        assert (a + b)[1..] == a[1..] + b;
        IndexInAppend(a[1..], b, k);
      }
    }
  }

  /** Along an arrangement over distinct keys the keys never go back: an element's key
      comes no earlier in `keys` than the key of any element before it. */
  lemma {:induction false} ArrangeRanks<T(!new), K(!new)>(keys: seq<K>, xs: seq<T>, key: T -> K, less: (T, T) -> bool)
    requires Distinct(keys)
    ensures forall i, j :: 0 <= i < j < |Arrange(keys, xs, key, less)| ==>
      Arrange(keys, xs, key, less)[i].1 in keys && Arrange(keys, xs, key, less)[j].1 in keys &&
      IndexIn(keys, Arrange(keys, xs, key, less)[i].1) <= IndexIn(keys, Arrange(keys, xs, key, less)[j].1)
    decreases |keys|
  {
    if keys != [] {
      var s := SortBy(Bucket(xs, key, keys[0]), less);
      var t := Tag(s, keys[0]);
      var rest := Arrange(keys[1..], xs, key, less);
      var p := Arrange(keys, xs, key, less);
      assert p == t + rest;
      DistinctTail(keys);
      ArrangeTags(keys[1..], xs, key, less);
      ArrangeRanks(keys[1..], xs, key, less);
      forall i, j | 0 <= i < j < |p|
        ensures p[i].1 in keys && p[j].1 in keys && IndexIn(keys, p[i].1) <= IndexIn(keys, p[j].1)
      {
        if j < |t| {
          assert p[i] == t[i] && p[j] == t[j];
        } else if i < |t| {
          assert p[i] == t[i] && p[j] == rest[j - |t|];
          assert rest[j - |t|].1 in keys[1..];
        } else {
          assert p[i] == rest[i - |t|] && p[j] == rest[j - |t|];
          IndexInTail(keys, p[i].1);
          IndexInTail(keys, p[j].1);
        }
      }
    } else {
      assert Arrange(keys, xs, key, less) == [];
    }
  }

  /** Over distinct keys the elements of one key are contiguous. */
  lemma ArrangeContiguous<T(!new), K(!new)>(keys: seq<K>, xs: seq<T>, key: T -> K, less: (T, T) -> bool, i: nat, m: nat, j: nat)
    requires Distinct(keys)
    requires i < m < j < |Arrange(keys, xs, key, less)|
    requires Arrange(keys, xs, key, less)[i].1 == Arrange(keys, xs, key, less)[j].1
    ensures Arrange(keys, xs, key, less)[m].1 == Arrange(keys, xs, key, less)[i].1
  {
    ArrangeRanks(keys, xs, key, less);
    var p := Arrange(keys, xs, key, less);
    assert IndexIn(keys, p[i].1) <= IndexIn(keys, p[m].1) <= IndexIn(keys, p[j].1);
  }

  /** The elements of `xs` with key `k`, as a set. */
  function KeySet<T(==,!new), K(==,!new)>(xs: seq<T>, key: T -> K, k: K): (r: set<T>)
    ensures forall x :: x in r <==> x in xs && key(x) == k
  {
    set x | x in xs && key(x) == k
  }

  /** `less` is a strict total order among the elements of `xs` that share a key. */
  ghost predicate TotalWithin<T(!new), K(!new)>(xs: seq<T>, key: T -> K, less: (T, T) -> bool) {
    forall k :: StrictTotalOn(less, KeySet(xs, key, k))
  }

  /** A sorted bucket is sorted when `less` orders the elements of each key totally. */
  lemma SortedBucket<T(!new), K(!new)>(xs: seq<T>, key: T -> K, k: K, less: (T, T) -> bool)
    requires TotalWithin(xs, key, less)
    ensures SortedBy(SortBy(Bucket(xs, key, k), less), less)
  {
    assert StrictTotalOn(less, KeySet(xs, key, k));
    SortBySorted(Bucket(xs, key, k), less, KeySet(xs, key, k));
  }

  /** Elements sharing a key appear in `less` order (or are equal). */
  ghost predicate OrderedWithinKeys<T, K>(p: seq<(T, K)>, less: (T, T) -> bool) {
    forall i, j :: 0 <= i < j < |p| && p[i].1 == p[j].1 ==> p[i].0 == p[j].0 || less(p[i].0, p[j].0)
  }

  /** Within one key the arrangement follows `less`, when `less` is a strict total order
      among the elements sharing a key. */
  lemma {:induction false} ArrangeSortedWithin<T(!new), K(!new)>(keys: seq<K>, xs: seq<T>, key: T -> K, less: (T, T) -> bool)
    requires Distinct(keys)
    requires TotalWithin(xs, key, less)
    ensures OrderedWithinKeys(Arrange(keys, xs, key, less), less)
    decreases |keys|
  {
    if keys != [] {
      DistinctTail(keys);
      ArrangeSortedWithin(keys[1..], xs, key, less);
      ArrangeSortedWithinStep(keys, xs, key, less);
    }
  }

  lemma ArrangeSortedWithinStep<T(!new), K(!new)>(keys: seq<K>, xs: seq<T>, key: T -> K, less: (T, T) -> bool)
    requires keys != [] && Distinct(keys)
    requires TotalWithin(xs, key, less)
    requires OrderedWithinKeys(Arrange(keys[1..], xs, key, less), less)
    ensures OrderedWithinKeys(Arrange(keys, xs, key, less), less)
  {
    var k := keys[0];
    var s := SortBy(Bucket(xs, key, k), less);
    var t := Piece(k, xs, key, less);
    var rest := Arrange(keys[1..], xs, key, less);
    var p := Arrange(keys, xs, key, less);
    ArrangeHead(keys, xs, key, less);
    DistinctTail(keys);
    ArrangeTags(keys[1..], xs, key, less);
    SortedBucket(xs, key, k, less);
    SortedBucketMembers(xs, key, k, less);
    assert StrictTotalOn(less, KeySet(xs, key, k));
    forall i, j | 0 <= i < j < |p| && p[i].1 == p[j].1
      ensures p[i].0 == p[j].0 || less(p[i].0, p[j].0)
    {
      if j < |t| {
        assert p[i] == (s[i], k) && p[j] == (s[j], k);
        assert s[i] in KeySet(xs, key, k) && s[j] in KeySet(xs, key, k);
      } else if i >= |t| {
        assert p[i] == rest[i - |t|] && p[j] == rest[j - |t|];
      }
    }
  }

  /** When `less` orders the elements of each key totally, the arrangement depends only on
      which elements occur, not on their input order. */
  lemma {:induction false} ArrangeOrderIndependent<T(!new), K(!new)>(keys: seq<K>, xs: seq<T>, ys: seq<T>, key: T -> K, less: (T, T) -> bool)
    requires multiset(xs) == multiset(ys)
    requires TotalWithin(xs, key, less)
    ensures Arrange(keys, xs, key, less) == Arrange(keys, ys, key, less)
    decreases |keys|
  {
    if keys != [] {
      var k := keys[0];
      BucketsAgree(xs, ys, key, k);
      assert StrictTotalOn(less, KeySet(xs, key, k));
      SortByOrderIndependent(Bucket(xs, key, k), Bucket(ys, key, k), less, KeySet(xs, key, k));
      ArrangeOrderIndependent(keys[1..], xs, ys, key, less);
    }
  }
}
