/** Sequence operations the core performs with `map`/`filter` chains and with `Set`:
    keeping the defined results of a partial map, and removing repeats while keeping
    first occurrences (the order in which a JavaScript `Set` lists what was added). */
module Lists {
  import opened Wrappers
  import opened Sorting

  /** The `Some` results of `f` over `xs`, in order. */
  function FilterMap<X, Y>(xs: seq<X>, f: X -> Option<Y>): (r: seq<Y>)
    ensures |r| <= |xs|
  {
    if xs == [] then []
    else
      var head := f(xs[0]);
      (if head.Some? then [head.value] else []) + FilterMap(xs[1..], f)
  }

  lemma {:induction false} FilterMapMembership<X, Y>(xs: seq<X>, f: X -> Option<Y>, y: Y)
    ensures y in FilterMap(xs, f) <==> exists i :: 0 <= i < |xs| && f(xs[i]) == Some(y)
  {
    if xs != [] {
      FilterMapMembership(xs[1..], f, y);
      if y !in FilterMap(xs, f) {
        forall i | 0 <= i < |xs|
          ensures f(xs[i]) != Some(y)
        {
          if i > 0 {
            assert xs[i] == xs[1..][i - 1];
          }
        }
      } else if f(xs[0]) != Some(y) {
        var j :| 0 <= j < |xs[1..]| && f(xs[1..][j]) == Some(y);
        assert xs[j + 1] == xs[1..][j];
      }
    }
  }

  lemma {:induction false} FilterMapEmpty<X, Y>(xs: seq<X>, f: X -> Option<Y>)
    ensures FilterMap(xs, f) == [] <==> forall i :: 0 <= i < |xs| ==> f(xs[i]).None?
  {
    if xs != [] {
      var rest := xs[1..];
      FilterMapEmpty(rest, f);
      assert forall i :: 1 <= i < |xs| ==> xs[i] == rest[i - 1];
    }
  }

  /** The results keep the order of the inputs they come from. */
  lemma {:induction false} FilterMapAppend<X, Y>(a: seq<X>, b: seq<X>, f: X -> Option<Y>)
    ensures FilterMap(a + b, f) == FilterMap(a, f) + FilterMap(b, f)
    decreases |a|
  {
    if a != [] {
      assert (a + b)[1..] == a[1..] + b;
      FilterMapAppend(a[1..], b, f);
      var head := if f(a[0]).Some? then [f(a[0]).value] else [];
      Associate(head, FilterMap(a[1..], f), FilterMap(b, f));
    } else {
      assert a + b == b;
    }
  }

  lemma Associate<T>(x: seq<T>, y: seq<T>, z: seq<T>)
    ensures x + (y + z) == x + y + z
  {
  }

  /** The elements of `xs` without repeats, each where it first occurs. */
  function Dedup<T(==)>(xs: seq<T>): (r: seq<T>)
    ensures |r| <= |xs|
    decreases |xs|
  {
    if xs == [] then []
    else
      var d := Dedup(xs[..|xs| - 1]);
      if xs[|xs| - 1] in d then d else d + [xs[|xs| - 1]]
  }

  /** Adding one more element keeps what was there and appends the element if it is new. */
  lemma DedupSnoc<T>(s: seq<T>, x: T)
    ensures Dedup(s + [x]) == if x in Dedup(s) then Dedup(s) else Dedup(s) + [x]
  {
    assert (s + [x])[..|s|] == s;
  }

  lemma {:induction false} DedupMembers<T>(xs: seq<T>, x: T)
    ensures x in Dedup(xs) <==> x in xs
    decreases |xs|
  {
    if xs != [] {
      var init := xs[..|xs| - 1];
      DedupMembers(init, x);
      assert xs == init + [xs[|xs| - 1]];
    }
  }

  lemma {:induction false} DedupDistinct<T>(xs: seq<T>)
    ensures Distinct(Dedup(xs))
    decreases |xs|
  {
    if xs != [] {
      var init := xs[..|xs| - 1];
      DedupDistinct(init);
    }
  }

  /** A sequence without repeats is its own deduplication. */
  lemma {:induction false} DedupOfDistinct<T>(xs: seq<T>)
    requires Distinct(xs)
    ensures Dedup(xs) == xs
    decreases |xs|
  {
    if xs != [] {
      var init := xs[..|xs| - 1];
      assert Distinct(init);
      DedupOfDistinct(init);
      DedupMembers(init, xs[|xs| - 1]);
      assert xs == init + [xs[|xs| - 1]];
    }
  }

  /** Appending more elements never disturbs the deduplication of what came first. */
  lemma {:induction false} DedupPrefix<T>(a: seq<T>, b: seq<T>)
    ensures |Dedup(a)| <= |Dedup(a + b)| && Dedup(a + b)[..|Dedup(a)|] == Dedup(a)
    decreases |b|
  {
    if b == [] {
      assert a + b == a;
    } else {
      var b' := b[..|b| - 1];
      DedupPrefix(a, b');
      assert a + b == (a + b') + [b[|b| - 1]];
      DedupSnoc(a + b', b[|b| - 1]);
    }
  }

  /** What follows the deduplication of `a` in that of `a + b` comes from `b` and not
      from `a`. */
  lemma DedupRest<T>(a: seq<T>, b: seq<T>, i: nat)
    requires |Dedup(a)| <= i < |Dedup(a + b)|
    ensures Dedup(a + b)[i] in b && Dedup(a + b)[i] !in a
  {
    var d := Dedup(a + b);
    DedupPrefix(a, b);
    DedupDistinct(a + b);
    DedupMembers(a + b, d[i]);
    DedupMembers(a, d[i]);
  }

  /** Result `i` is the first error. */
  predicate FirstError<T, E>(results: seq<Result<T, E>>, i: int) {
    0 <= i < |results| && results[i].Err? && forall j :: 0 <= j < i ==> results[j].Ok?
  }

  /** A sequential loop of steps that may throw: every value in order, or the first
      error. */
  function Collect<T, E>(results: seq<Result<T, E>>): (r: Result<seq<T>, E>)
    ensures r.Ok? <==> forall i :: 0 <= i < |results| ==> results[i].Ok?
    ensures r.Ok? ==> |r.value| == |results| && forall i :: 0 <= i < |results| ==> results[i] == Ok(r.value[i])
    ensures r.Err? ==> exists i :: FirstError(results, i) && results[i] == Err(r.error)
  {
    if results == [] then Ok([])
    else if results[0].Err? then
      assert FirstError(results, 0);
      Err(results[0].error)
    else
      var rest := Collect(results[1..]);
      CollectShift(results, rest);
      if rest.Err? then Err(rest.error) else Ok([results[0].value] + rest.value)
  }

  lemma CollectShift<T, E>(results: seq<Result<T, E>>, rest: Result<seq<T>, E>)
    requires results != [] && results[0].Ok?
    requires rest.Ok? <==> forall i :: 0 <= i < |results| - 1 ==> results[1..][i].Ok?
    requires rest.Ok? ==> |rest.value| == |results| - 1 && forall i :: 0 <= i < |results| - 1 ==> results[1..][i] == Ok(rest.value[i])
    requires rest.Err? ==> exists i :: FirstError(results[1..], i) && results[1..][i] == Err(rest.error)
    ensures rest.Ok? <==> forall i :: 0 <= i < |results| ==> results[i].Ok?
    ensures rest.Ok? ==> forall i :: 0 <= i < |results| ==> results[i] == Ok(([results[0].value] + rest.value)[i])
    ensures rest.Err? ==> exists i :: FirstError(results, i) && results[i] == Err(rest.error)
  {
    assert forall i :: 0 < i < |results| ==> results[i] == results[1..][i - 1];
    if rest.Err? {
      var i :| FirstError(results[1..], i) && results[1..][i] == Err(rest.error);
      assert FirstError(results, i + 1);
    }
  }

  /** A step that throws after steps that returned rejects the loop with its error. */
  lemma {:induction false} CollectStops<T, E>(results: seq<Result<T, E>>, i: int)
    requires FirstError(results, i)
    ensures Collect(results) == Err(results[i].error)
    decreases i
  {
    if i > 0 {
      assert results[0].Ok?;
      assert FirstError(results[1..], i - 1) by {
        assert forall j :: 0 <= j < i - 1 ==> results[1..][j] == results[j + 1];
      }
      CollectStops(results[1..], i - 1);
    }
  }

  /** A step that throws after steps that returned the given values rejects the loop with
      its error. */
  lemma CollectAfterValues<T, E>(results: seq<Result<T, E>>, values: seq<T>, i: int)
    requires 0 <= i < |results| && results[i].Err?
    requires |values| == i && forall j :: 0 <= j < i ==> results[j] == Ok(values[j])
    ensures Collect(results) == Err(results[i].error)
  {
    CollectStops(results, i);
  }

  /** Steps that all return give their values. */
  lemma CollectValues<T, E>(results: seq<Result<T, E>>, values: seq<T>)
    requires |values| == |results| && forall i :: 0 <= i < |results| ==> results[i] == Ok(values[i])
    ensures Collect(results) == Ok(values)
  {
    var r := Collect(results);
    assert r.Ok?;
    assert r.value == values;
  }
}
