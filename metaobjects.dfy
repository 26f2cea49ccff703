/** Metaobject references by handle: the map from normalised handle to metaobject id of
    each metaobject type, read from the Shopify listing page by page and cached per type. */
module Metaobjects {
  import opened Wrappers
  import opened Text
  import opened Paging
  import opened Keyed

  datatype MetaobjectNode = MetaobjectNode(id: string, handle: string)

  /** `normalizeHandle`: trim, lower-case, drop every character outside `[a-z0-9]`. */
  function NormalizeHandle(value: string): (r: string)
    ensures forall i :: 0 <= i < |r| ==> IsLowerAlnum(r[i])
  {
    Filter(ToLower(Trim(value)), IsLowerAlnum)
  }

  lemma NormalizeHandleIdempotent(value: string)
    ensures NormalizeHandle(NormalizeHandle(value)) == NormalizeHandle(value)
  {
    LowerAlnumFixed(NormalizeHandle(value));
  }

  /** The trim is subsumed by the filter: whitespace is never kept. */
  lemma NormalizeHandleUntrimmed(value: string)
    ensures NormalizeHandle(value) == Filter(ToLower(value), IsLowerAlnum)
  {
    TrimOfLower(value);
    FilterOfTrim(ToLower(value));
  }

  /** Values that differ only in letter case normalise alike. */
  lemma HandleIgnoresCase(value: string)
    ensures NormalizeHandle(ToLower(value)) == NormalizeHandle(value)
    ensures NormalizeHandle(ToUpper(value)) == NormalizeHandle(value)
  {
    ToLowerIdempotent(value);
    HandleOfSameLower(value, ToLower(value));
    LowerOfUpper(value);
    HandleOfSameLower(value, ToUpper(value));
  }

  /** Values with the same lower-case form normalise alike. */
  lemma HandleOfSameLower(value: string, other: string)
    requires ToLower(other) == ToLower(value)
    ensures NormalizeHandle(other) == NormalizeHandle(value)
  {
    NormalizeHandleUntrimmed(value);
    NormalizeHandleUntrimmed(other);
  }

  /** Values that differ only in a character outside `[A-Za-z0-9]` normalise alike. */
  lemma HandleIgnoresPunctuation(a: string, c: char, b: string)
    requires !IsLowerAlnum(LowerChar(c))
    ensures NormalizeHandle(a + [c] + b) == NormalizeHandle(a + b)
  {
    NormalizeHandleUntrimmed(a + [c] + b);
    NormalizeHandleUntrimmed(a + b);
    LowerAround(a, c, b);
    FilterSkips(ToLower(a), LowerChar(c), ToLower(b), IsLowerAlnum);
  }

  lemma LowerAround(a: string, c: char, b: string)
    ensures ToLower(a + [c] + b) == ToLower(a) + [LowerChar(c)] + ToLower(b)
    ensures ToLower(a + b) == ToLower(a) + ToLower(b)
  {
    ToLowerAppend(a + [c], b);
    ToLowerAppend(a, [c]);
    ToLowerAppend(a, b);
  }

  // ---------------------------------------------------------------------------
  // The handle map

  /** The key a node is filed under. */
  function HandleKey(node: MetaobjectNode): string {
    NormalizeHandle(node.handle)
  }

  function NodeId(node: MetaobjectNode): string {
    node.id
  }

  /** The `forEach` over a type's nodes: a handle that normalises to a non-empty key maps
      that key to the node's id, and a later node overwrites an earlier one. */
  function HandleMap(nodes: seq<MetaobjectNode>): map<string, string> {
    SetAll(map[], nodes, HandleKey, NodeId)
  }

  /** What loading a type yields: the handle map of every page up to the last, or the
      error of the request that threw. */
  function Loaded(listing: seq<Result<Page<MetaobjectNode>, string>>): Result<map<string, string>, string>
    requires Ends(listing)
  {
    var n := Stop(listing);
    if listing[n].Err? then Err(listing[n].error) else Ok(HandleMap(Nodes(listing, n + 1)))
  }

  /** `lookup.get(normalizeHandle(value))`. */
  function Lookup(m: map<string, string>, value: string): (r: Option<string>)
    ensures r.Some? <==> NormalizeHandle(value) in m
    ensures r.Some? ==> r.value == m[NormalizeHandle(value)]
  {
    var key := NormalizeHandle(value);
    if key in m then Some(m[key]) else None
  }

  /** A value resolves to the id of the last node whose handle normalises as the value
      does, and to nothing when no node's does. */
  lemma LookupLast(nodes: seq<MetaobjectNode>, value: string)
    ensures Lookup(HandleMap(nodes), value).Some? <==> exists i :: Carries(nodes, HandleKey, NormalizeHandle(value), i)
    ensures Lookup(HandleMap(nodes), value).Some? ==>
      exists i :: LastCarrier(nodes, HandleKey, NormalizeHandle(value), i) && Lookup(HandleMap(nodes), value) == Some(nodes[i].id)
  {
    var k := NormalizeHandle(value);
    SetAllLast(map[], nodes, HandleKey, NodeId, k);
  }

  /** A handle that normalises to nothing is never a key. */
  lemma EmptyHandleNotMapped(nodes: seq<MetaobjectNode>)
    ensures "" !in HandleMap(nodes)
  {
    SetAllLast(map[], nodes, HandleKey, NodeId, "");
  }

  /** What one more page adds to the loop's state. */
  lemma PageStep(listing: seq<Result<Page<MetaobjectNode>, string>>, k: nat)
    requires k < |listing| && forall j :: 0 <= j <= k ==> listing[j].Ok?
    ensures HandleMap(Nodes(listing, k + 1)) == SetAll(HandleMap(Nodes(listing, k)), listing[k].value.nodes, HandleKey, NodeId)
  {
    SetAllAppend(map[], Nodes(listing, k), listing[k].value.nodes, HandleKey, NodeId);
  }

  /** The `while (hasNext)` loop of one load, with the requests it sends. */
  method LoadPages(metaobjectType: string, listing: seq<Result<Page<MetaobjectNode>, string>>)
      returns (r: Result<map<string, string>, string>, sent: seq<Request>)
    requires Ends(listing)
    ensures r == Loaded(listing)
    ensures sent == Requests(metaobjectType, listing, Stop(listing) + 1)
  {
    var m: map<string, string> := map[];
    var hasNext := true;
    var cursor: Option<string> := None;
    var k := 0;
    sent := [];
    while hasNext
      invariant 0 <= k <= Stop(listing) + 1
      invariant forall j :: 0 <= j < k ==> listing[j].Ok?
      invariant hasNext <==> k <= Stop(listing)
      invariant m == HandleMap(Nodes(listing, k))
      invariant cursor == CursorOf(listing, k)
      invariant sent == Requests(metaobjectType, listing, k)
      decreases Stop(listing) + 1 - k
    {
      var request := Request(metaobjectType, cursor);
      var answer := listing[k];
      if answer.Err? {
        PageThrew(metaobjectType, listing, k, sent, cursor);
        LoadedErr(listing, k);
        return Err(answer.error), sent + [request];
      }
      var page := answer.value;
      PageReturned(metaobjectType, listing, k, sent, cursor);
      PageStep(listing, k);
      sent := sent + [request];
      m := SetEach(m, page.nodes, HandleKey, NodeId);
      hasNext := page.hasNextPage;
      cursor := page.endCursor;
      k := k + 1;
    }
    LoadedOk(listing, k);
    r := Ok(m);
  }

  lemma LoadedErr(listing: seq<Result<Page<MetaobjectNode>, string>>, k: nat)
    requires Ends(listing) && Stop(listing) == k && listing[k].Err?
    ensures Loaded(listing) == Err(listing[k].error)
  {
  }

  lemma LoadedOk(listing: seq<Result<Page<MetaobjectNode>, string>>, k: nat)
    requires Ends(listing) && k == Stop(listing) + 1 && forall j :: 0 <= j < k ==> listing[j].Ok?
    ensures Loaded(listing) == Ok(HandleMap(Nodes(listing, k)))
  {
    assert listing[k - 1].Ok?;
  }

  // ---------------------------------------------------------------------------
  // The per-type cache

  /** The module-level `cache` and what `pending` keeps of a load that threw: its
      rejected promise is never removed, so every later load of that type rejects with the
      same error without a request. The server's answers to the successive requests for a
      type are `listings(type)`. */
  class MetaobjectCache {
    const listings: string -> seq<Result<Page<MetaobjectNode>, string>>
    var maps: map<string, map<string, string>>
    var failures: map<string, string>
    var requests: seq<Request>

    ghost predicate Valid()
      reads this`maps, this`failures
    {
      (forall t :: Ends(listings(t))) &&
      (forall t :: t in maps ==> Loaded(listings(t)) == Ok(maps[t])) &&
      (forall t :: t in failures ==> Loaded(listings(t)) == Err(failures[t]))
    }

    constructor(listings: string -> seq<Result<Page<MetaobjectNode>, string>>)
      requires forall t :: Ends(listings(t))
      ensures Valid() && this.listings == listings
      ensures maps == map[] && failures == map[] && requests == []
    {
      this.listings := listings;
      maps, failures, requests := map[], map[], [];
    }

    /** The requests a load of `metaobjectType` sends: none when the type is cached or
        its load threw before, every page up to the stopping one otherwise. */
    function LoadRequests(metaobjectType: string, known: bool): seq<Request>
      requires Ends(listings(metaobjectType))
    {
      if known then [] else Requests(metaobjectType, listings(metaobjectType), Stop(listings(metaobjectType)) + 1)
    }

    /** `loadMetaobjects`. */
    method Load(metaobjectType: string) returns (r: Result<map<string, string>, string>)
      requires Valid()
      modifies this
      ensures Valid()
      ensures r == Loaded(listings(metaobjectType))
      ensures var known := metaobjectType in old(maps) || metaobjectType in old(failures);
        requests == old(requests) + LoadRequests(metaobjectType, known) &&
        maps == (if !known && r.Ok? then old(maps)[metaobjectType := r.value] else old(maps)) &&
        failures == (if !known && r.Err? then old(failures)[metaobjectType := r.error] else old(failures))
    {
      if metaobjectType in maps {
        return Ok(maps[metaobjectType]);
      }
      if metaobjectType in failures {
        return Err(failures[metaobjectType]);
      }
      var loaded, sent := LoadPages(metaobjectType, listings(metaobjectType));
      Remember(metaobjectType, loaded, sent);
      r := loaded;
    }

    /** Records the requests of one load, and remembers its map, or its error as the
        rejected promise `pending` keeps. */
    method Remember(metaobjectType: string, loaded: Result<map<string, string>, string>, sent: seq<Request>)
      requires Valid() && loaded == Loaded(listings(metaobjectType))
      modifies this
      ensures Valid()
      ensures requests == old(requests) + sent
      ensures maps == (if loaded.Ok? then old(maps)[metaobjectType := loaded.value] else old(maps))
      ensures failures == (if loaded.Err? then old(failures)[metaobjectType := loaded.error] else old(failures))
    {
      Send(sent);
      Keep(metaobjectType, loaded);
    }

    /** Remembers the map of one load, or its error. */
    method Keep(metaobjectType: string, loaded: Result<map<string, string>, string>)
      requires Valid() && loaded == Loaded(listings(metaobjectType))
      modifies this`maps, this`failures
      ensures Valid()
      ensures maps == (if loaded.Ok? then old(maps)[metaobjectType := loaded.value] else old(maps))
      ensures failures == (if loaded.Err? then old(failures)[metaobjectType := loaded.error] else old(failures))
    {
      if loaded.Err? {
        RememberFailure(metaobjectType, loaded.error);
      } else {
        RememberMap(metaobjectType, loaded.value);
      }
    }

    method Send(sent: seq<Request>)
      requires Valid()
      modifies this`requests
      ensures Valid()
      ensures requests == old(requests) + sent
    {
      requests := requests + sent;
    }

    method RememberFailure(metaobjectType: string, error: string)
      requires Valid() && Loaded(listings(metaobjectType)) == Err(error)
      modifies this`failures
      ensures Valid()
      ensures failures == old(failures)[metaobjectType := error]
    {
      failures := failures[metaobjectType := error];
    }

    method RememberMap(metaobjectType: string, m: map<string, string>)
      requires Valid() && Loaded(listings(metaobjectType)) == Ok(m)
      modifies this`maps
      ensures Valid()
      ensures maps == old(maps)[metaobjectType := m]
    {
      maps := maps[metaobjectType := m];
    }

    /** `resolveMetaobjectId`: an absent or empty value resolves to nothing without
        loading; otherwise the normalised value is looked up in the type's map. */
    method ResolveMetaobjectId(metaobjectType: string, value: Option<string>) returns (r: Result<Option<string>, string>)
      requires Valid()
      modifies this
      ensures Valid()
      ensures value.None? || value.value == "" ==>
        r == Ok(None) && requests == old(requests) && maps == old(maps) && failures == old(failures)
      ensures value.Some? && value.value != "" ==>
        r == (match Loaded(listings(metaobjectType))
              case Err(e) => Err(e)
              case Ok(m) => Ok(Lookup(m, value.value))) &&
        requests == old(requests) + LoadRequests(metaobjectType, metaobjectType in old(maps) || metaobjectType in old(failures))
      ensures value.Some? && value.value != "" ==>
        var known := metaobjectType in old(maps) || metaobjectType in old(failures);
        var loaded := Loaded(listings(metaobjectType));
        maps == (if !known && loaded.Ok? then old(maps)[metaobjectType := loaded.value] else old(maps)) &&
        failures == (if !known && loaded.Err? then old(failures)[metaobjectType := loaded.error] else old(failures))
      ensures r.Ok? && r.value.Some? ==>
        metaobjectType in maps && NormalizeHandle(value.value) in maps[metaobjectType] &&
        r.value.value == maps[metaobjectType][NormalizeHandle(value.value)]
    {
      if value.None? || value.value == "" {
        return Ok(None);
      }
      var lookup := Load(metaobjectType);
      if lookup.Err? {
        return Err(lookup.error);
      }
      r := Ok(Lookup(lookup.value, value.value));
    }
  }
}
