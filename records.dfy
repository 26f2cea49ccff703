/** JavaScript plain objects with string keys, as the core builds and reads them: a
    sequence of entries in insertion order, a property read that finds the entry with the
    key, and an assignment that overwrites in place or appends. */
module Records {
  import opened Wrappers

  /** No key occurs twice. */
  predicate UniqueKeys<V>(entries: seq<(string, V)>) {
    forall i, j :: 0 <= i < j < |entries| ==> entries[i].0 != entries[j].0
  }

  /** Index of the first entry whose key is exactly `key`, or -1. */
  function KeyIndex<V>(entries: seq<(string, V)>, key: string): (r: int)
    ensures -1 <= r < |entries|
    ensures r >= 0 ==> entries[r].0 == key
    ensures forall j :: 0 <= j < |entries| && (r < 0 || j < r) ==> entries[j].0 != key
  {
    if entries == [] then -1
    else if entries[0].0 == key then 0
    else
      var k := KeyIndex(entries[1..], key);
      if k < 0 then -1 else k + 1
  }

  /** The index search is determined by what it promises. */
  lemma KeyIndexIs<V>(entries: seq<(string, V)>, key: string, r: int)
    requires -1 <= r < |entries|
    requires r >= 0 ==> entries[r].0 == key
    requires forall j :: 0 <= j < |entries| && (r < 0 || j < r) ==> entries[j].0 != key
    ensures KeyIndex(entries, key) == r
  {
  }

  /** The property read `record[key]`. */
  function Get<V>(entries: seq<(string, V)>, key: string): (r: Option<V>)
    ensures r.Some? <==> exists i :: 0 <= i < |entries| && entries[i].0 == key
    ensures r.Some? ==> exists i :: 0 <= i < |entries| && entries[i] == (key, r.value)
  {
    var i := KeyIndex(entries, key);
    if i < 0 then None else Some(entries[i].1)
  }

  /** In a record without repeated keys, the entry with the key is the one read. */
  lemma GetUnique<V>(entries: seq<(string, V)>, i: nat)
    requires UniqueKeys(entries) && i < |entries|
    ensures Get(entries, entries[i].0) == Some(entries[i].1)
  {
    KeyIndexIs(entries, entries[i].0, i);
  }

  /** The assignment `record[key] = v`: an existing key keeps its place, a new key goes
      last. */
  function Put<V>(entries: seq<(string, V)>, key: string, v: V): (r: seq<(string, V)>)
    ensures Get(r, key) == Some(v)
    ensures forall k :: k != key ==> Get(r, k) == Get(entries, k)
    ensures UniqueKeys(entries) ==> UniqueKeys(r)
    ensures |r| == if Get(entries, key).Some? then |entries| else |entries| + 1
    ensures forall i :: 0 <= i < |entries| ==> r[i].0 == entries[i].0
  {
    var i := KeyIndex(entries, key);
    if i >= 0 then
      var r := entries[i := (key, v)];
      KeyIndexIs(r, key, i);
      forall k | k != key
        ensures Get(r, k) == Get(entries, k)
      {
        KeyIndexIs(r, k, KeyIndex(entries, k));
      }
      r
    else
      var r := entries + [(key, v)];
      KeyIndexIs(r, key, |entries|);
      forall k | k != key
        ensures Get(r, k) == Get(entries, k)
      {
        KeyIndexIs(r, k, KeyIndex(entries, k));
      }
      r
  }

  /** The keys, in record order (`Object.keys`). */
  function Keys<V>(entries: seq<(string, V)>): (r: seq<string>)
    ensures |r| == |entries| && forall i :: 0 <= i < |r| ==> r[i] == entries[i].0
  {
    seq(|entries|, i requires 0 <= i < |entries| => entries[i].0)
  }
}
