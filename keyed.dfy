/** Maps built by walking a sequence of items and setting the key each item yields, as
    the metaobject loaders' `map.set` loops do; an empty key is skipped. */
module Keyed {
  /** One step: an item whose key is non-empty maps its key to its value, over whatever
      the key mapped to before. */
  function SetLast<N>(m: map<string, string>, item: N, key: N -> string, value: N -> string): map<string, string> {
    if key(item) != "" then m[key(item) := value(item)] else m
  }

  /** Every step, in order: a later item overwrites an earlier one. */
  function SetAll<N>(m: map<string, string>, items: seq<N>, key: N -> string, value: N -> string): map<string, string>
    decreases |items|
  {
    if items == [] then m
    else SetLast(SetAll(m, items[..|items| - 1], key, value), items[|items| - 1], key, value)
  }

  lemma {:induction false} SetAllAppend<N>(m: map<string, string>, a: seq<N>, b: seq<N>, key: N -> string, value: N -> string)
    ensures SetAll(m, a + b, key, value) == SetAll(SetAll(m, a, key, value), b, key, value)
    decreases |b|
  {
    if b == [] {
      assert a + b == a;
    } else {
      var init := b[..|b| - 1];
      SetAllAppend(m, a, init, key, value);
      assert (a + b)[..|a + b| - 1] == a + init;
    }
  }

  /** Item `i` yields the non-empty key `k`. */
  predicate Carries<N>(items: seq<N>, key: N -> string, k: string, i: int) {
    0 <= i < |items| && k != "" && key(items[i]) == k
  }

  /** Item `i` is the last item yielding `k`. */
  predicate LastCarrier<N>(items: seq<N>, key: N -> string, k: string, i: int) {
    Carries(items, key, k, i) && forall j :: i < j < |items| ==> !Carries(items, key, k, j)
  }

  /** A key is set exactly when it was set before or some item yields it, and then it
      holds the value of the last item that yields it. */
  lemma {:induction false} SetAllLast<N>(m: map<string, string>, items: seq<N>, key: N -> string, value: N -> string, k: string)
    ensures k in SetAll(m, items, key, value) <==> k in m || exists i :: Carries(items, key, k, i)
    ensures (exists i :: Carries(items, key, k, i)) ==>
      exists i :: LastCarrier(items, key, k, i) && SetAll(m, items, key, value)[k] == value(items[i])
    ensures (forall i :: !Carries(items, key, k, i)) && k in m ==> SetAll(m, items, key, value)[k] == m[k]
    decreases |items|
  {
    if items != [] {
      var init := items[..|items| - 1];
      SetAllLast(m, init, key, value, k);
      LastStep(m, items, key, value, k, SetAll(m, init, key, value), SetAll(m, items, key, value));
    }
  }

  /** The three facts of `SetAllLast` carried over one more item, from the map `prev`
      before it to the map `cur` after it. */
  lemma LastStep<N>(m: map<string, string>, items: seq<N>, key: N -> string, value: N -> string, k: string,
                    prev: map<string, string>, cur: map<string, string>)
    requires items != [] && cur == SetLast(prev, items[|items| - 1], key, value)
    requires var init := items[..|items| - 1];
      (k in prev <==> k in m || exists i :: Carries(init, key, k, i)) &&
      ((exists i :: Carries(init, key, k, i)) ==> exists i :: LastCarrier(init, key, k, i) && prev[k] == value(init[i])) &&
      ((forall i :: !Carries(init, key, k, i)) && k in m ==> prev[k] == m[k])
    ensures k in cur <==> k in m || exists i :: Carries(items, key, k, i)
    ensures (exists i :: Carries(items, key, k, i)) ==> exists i :: LastCarrier(items, key, k, i) && cur[k] == value(items[i])
    ensures (forall i :: !Carries(items, key, k, i)) && k in m ==> cur[k] == m[k]
  {
    var n := |items| - 1;
    var init := items[..n];
    CarriesInit(items, key, k);
    if Carries(items, key, k, n) {
      assert LastCarrier(items, key, k, n);
    } else if exists i :: Carries(items, key, k, i) {
      var j :| Carries(items, key, k, j);
      assert Carries(init, key, k, j);
      var i :| LastCarrier(init, key, k, i) && prev[k] == value(init[i]);
      assert init[i] == items[i];
      assert LastCarrier(items, key, k, i);
    } else {
      forall i | 0 <= i < |init|
        ensures !Carries(init, key, k, i)
      {
        assert init[i] == items[i] && !Carries(items, key, k, i);
      }
      assert k in cur <==> k in prev;
    }
  }

  lemma CarriesInit<N>(items: seq<N>, key: N -> string, k: string)
    requires items != []
    ensures forall i :: Carries(items[..|items| - 1], key, k, i) <==> 0 <= i < |items| - 1 && Carries(items, key, k, i)
  {
    var init := items[..|items| - 1];
    forall i
      ensures Carries(init, key, k, i) <==> 0 <= i < |init| && Carries(items, key, k, i)
    {
      if 0 <= i < |init| {
        assert init[i] == items[i];
      }
    }
  }

  /** The loop that performs the steps. */
  method SetEach<N>(m: map<string, string>, items: seq<N>, key: N -> string, value: N -> string) returns (r: map<string, string>)
    ensures r == SetAll(m, items, key, value)
  {
    r := m;
    var i := 0;
    while i < |items|
      invariant 0 <= i <= |items|
      invariant r == SetAll(m, items[..i], key, value)
    {
      assert items[..i + 1][..i] == items[..i];
      var k := key(items[i]);
      if k != "" {
        r := r[k := value(items[i])];
      }
      i := i + 1;
    }
    assert items[..i] == items;
  }

  /** Every key of `keys` set to `v`, as each `map.set(key, v)` in turn does. */
  function SetTo(m: map<string, string>, keys: seq<string>, v: string): map<string, string>
    decreases |keys|
  {
    if keys == [] then m else SetTo(m, keys[..|keys| - 1], v)[keys[|keys| - 1] := v]
  }

  lemma {:induction false} SetToAt(m: map<string, string>, keys: seq<string>, v: string, k: string)
    ensures k in SetTo(m, keys, v) <==> k in m || k in keys
    ensures k in keys ==> SetTo(m, keys, v)[k] == v
    ensures k !in keys && k in m ==> SetTo(m, keys, v)[k] == m[k]
    decreases |keys|
  {
    if keys != [] {
      var init := keys[..|keys| - 1];
      SetToAt(m, init, v, k);
      assert keys == init + [keys[|keys| - 1]];
    }
  }

  /** Every key of `keys` that is not yet mapped set to `v`, as
      `if (!map.has(key)) map.set(key, v)` in turn does. */
  function SetAbsent(m: map<string, string>, keys: seq<string>, v: string): map<string, string>
    decreases |keys|
  {
    if keys == [] then m
    else
      var r := SetAbsent(m, keys[..|keys| - 1], v);
      if keys[|keys| - 1] in r then r else r[keys[|keys| - 1] := v]
  }

  lemma {:induction false} SetAbsentAt(m: map<string, string>, keys: seq<string>, v: string, k: string)
    ensures k in SetAbsent(m, keys, v) <==> k in m || k in keys
    ensures k in m ==> SetAbsent(m, keys, v)[k] == m[k]
    ensures k !in m && k in keys ==> SetAbsent(m, keys, v)[k] == v
    ensures k !in keys && k in m ==> SetAbsent(m, keys, v)[k] == m[k]
    decreases |keys|
  {
    if keys != [] {
      var init := keys[..|keys| - 1];
      SetAbsentAt(m, init, v, k);
      assert keys == init + [keys[|keys| - 1]];
    }
  }

  /** The loops that perform them. */
  method SetEachTo(m: map<string, string>, keys: seq<string>, v: string) returns (r: map<string, string>)
    ensures r == SetTo(m, keys, v)
  {
    r := m;
    for i := 0 to |keys|
      invariant r == SetTo(m, keys[..i], v)
    {
      assert keys[..i + 1][..i] == keys[..i];
      r := r[keys[i] := v];
    }
    assert keys[..|keys|] == keys;
  }

  method SetEachAbsent(m: map<string, string>, keys: seq<string>, v: string) returns (r: map<string, string>)
    ensures r == SetAbsent(m, keys, v)
  {
    r := m;
    for i := 0 to |keys|
      invariant r == SetAbsent(m, keys[..i], v)
    {
      assert keys[..i + 1][..i] == keys[..i];
      if keys[i] !in r {
        r := r[keys[i] := v];
      }
    }
    assert keys[..|keys|] == keys;
  }
}
