/** The cursor pagination both metaobject loaders share: the first request has no cursor,
    each later one asks for the page after the previous page's end cursor, and the loop
    stops at a page without a next page or at a request that throws. */
module Paging {
  import opened Wrappers

  datatype Page<N> = Page(nodes: seq<N>, hasNextPage: bool, endCursor: Option<string>)

  /** One request: the metaobject type and the cursor it asks after. */
  datatype Request = Request(metaobjectType: string, cursor: Option<string>)

  /** After this answer the loader asks again. */
  predicate Continues<N>(answer: Result<Page<N>, string>) {
    answer.Ok? && answer.value.hasNextPage
  }

  /** The server's answers to successive requests include one that stops the loop. */
  predicate Ends<N>(listing: seq<Result<Page<N>, string>>) {
    exists i :: 0 <= i < |listing| && !Continues(listing[i])
  }

  /** The index of the answer that stops the loop. */
  function Stop<N>(listing: seq<Result<Page<N>, string>>): (n: nat)
    requires Ends(listing)
    ensures n < |listing| && !Continues(listing[n])
    ensures forall j :: 0 <= j < n ==> Continues(listing[j])
    decreases |listing|
  {
    if !Continues(listing[0]) then 0
    else
      assert Ends(listing[1..]) by {
        var i :| 0 <= i < |listing| && !Continues(listing[i]);
        assert listing[1..][i - 1] == listing[i];
      }
      var n := Stop(listing[1..]);
      assert forall j :: 1 <= j < n + 1 ==> listing[j] == listing[1..][j - 1];
      n + 1
  }

  /** The cursor of request `k`. */
  function CursorOf<N>(listing: seq<Result<Page<N>, string>>, k: nat): Option<string>
    requires k <= |listing| && (k > 0 ==> listing[k - 1].Ok?)
  {
    if k == 0 then None else listing[k - 1].value.endCursor
  }

  /** The first `k` requests for `metaobjectType`. */
  function Requests<N>(metaobjectType: string, listing: seq<Result<Page<N>, string>>, k: nat): (r: seq<Request>)
    requires k <= |listing| && forall j :: 0 <= j < k - 1 ==> listing[j].Ok?
    ensures |r| == k
    ensures forall i :: 0 <= i < k ==> r[i] == Request(metaobjectType, CursorOf(listing, i))
  {
    if k == 0 then [] else Requests(metaobjectType, listing, k - 1) + [Request(metaobjectType, CursorOf(listing, k - 1))]
  }

  /** The nodes of the first `k` pages, in order. */
  function Nodes<N>(listing: seq<Result<Page<N>, string>>, k: nat): (r: seq<N>)
    requires k <= |listing| && forall j :: 0 <= j < k ==> listing[j].Ok?
  {
    if k == 0 then [] else Nodes(listing, k - 1) + listing[k - 1].value.nodes
  }

  /** Request `k + 1` carries the cursor of answer `k`. */
  lemma RequestsStep<N>(metaobjectType: string, listing: seq<Result<Page<N>, string>>, k: nat)
    requires k < |listing| && forall j :: 0 <= j < k ==> listing[j].Ok?
    ensures Requests(metaobjectType, listing, k + 1) == Requests(metaobjectType, listing, k) + [Request(metaobjectType, CursorOf(listing, k))]
  {
  }

  /** The first answer that does not continue is where the listing stops. */
  lemma StopAt<N>(listing: seq<Result<Page<N>, string>>, k: nat)
    requires Ends(listing) && k <= Stop(listing) && !Continues(listing[k])
    ensures Stop(listing) == k
  {
  }

  /** An answer that returned moves the loop on: the request after it carries its end
      cursor, and the loop asks again exactly when the listing has not stopped. */
  lemma PageReturned<N>(metaobjectType: string, listing: seq<Result<Page<N>, string>>, k: nat, sent: seq<Request>, cursor: Option<string>)
    requires Ends(listing) && k <= Stop(listing) && (forall j :: 0 <= j < k ==> listing[j].Ok?) && listing[k].Ok?
    requires sent == Requests(metaobjectType, listing, k) && cursor == CursorOf(listing, k)
    ensures forall j :: 0 <= j < k + 1 ==> listing[j].Ok?
    ensures sent + [Request(metaobjectType, cursor)] == Requests(metaobjectType, listing, k + 1)
    ensures listing[k].value.endCursor == CursorOf(listing, k + 1)
    ensures listing[k].value.hasNextPage <==> k + 1 <= Stop(listing)
  {
    RequestsStep(metaobjectType, listing, k);
    if !listing[k].value.hasNextPage {
      StopAt(listing, k);
    }
  }

  /** An answer that asks for more but has no end cursor sends the loop back to the
      first page: the next request carries no cursor, as the first one does. With a
      server that keeps answering so, the loop never stops. */
  lemma NullCursorRestarts<N>(metaobjectType: string, listing: seq<Result<Page<N>, string>>, k: nat)
    requires k + 1 < |listing| && forall j :: 0 <= j <= k ==> listing[j].Ok?
    requires listing[k].value.hasNextPage && listing[k].value.endCursor.None?
    ensures Requests(metaobjectType, listing, k + 2)[k + 1] == Requests(metaobjectType, listing, k + 2)[0]
  {
  }

  /** An answer that threw stops the loop after its request. */
  lemma PageThrew<N>(metaobjectType: string, listing: seq<Result<Page<N>, string>>, k: nat, sent: seq<Request>, cursor: Option<string>)
    requires Ends(listing) && k <= Stop(listing) && (forall j :: 0 <= j < k ==> listing[j].Ok?) && listing[k].Err?
    requires sent == Requests(metaobjectType, listing, k) && cursor == CursorOf(listing, k)
    ensures Stop(listing) == k
    ensures sent + [Request(metaobjectType, cursor)] == Requests(metaobjectType, listing, Stop(listing) + 1)
  {
    RequestsStep(metaobjectType, listing, k);
    StopAt(listing, k);
  }
}
