/** The pure parts of `useInfiniteScroll` (src/hooks/useInfiniteScroll.ts). */
module InfiniteScroll {
  import opened Wrappers
  import opened JsValues

  /** One page the endpoint returns. */
  datatype InfiniteResponse = InfiniteResponse(data: seq<JsValue>, nextPage: Option<int>, hasMore: bool)

  /** A fetched page: the response body, whose `data` may be missing. */
  type Page = Option<InfiniteResponse>

  /** The default `getNextPageParam`: the next page number while there are more, otherwise none. */
  function DefaultNextPageParam(lastPage: Page): (r: Option<int>)
    ensures lastPage.Some? && lastPage.value.hasMore ==> r == lastPage.value.nextPage
    ensures lastPage.None? || !lastPage.value.hasMore ==> r.None?
  {
    if lastPage.Some? && lastPage.value.hasMore then lastPage.value.nextPage else None
  }

  /** `page.data?.data || []`. */
  function PageItems(page: Page): seq<JsValue> {
    if page.Some? then page.value.data else []
  }

  /** `pages.flatMap(page => page.data?.data || [])`. */
  function Flatten(pages: seq<Page>): seq<JsValue> {
    if pages == [] then [] else PageItems(pages[0]) + Flatten(pages[1..])
  }

  /** `data?.pages.flatMap(…) || []`: no data gives no items. */
  function AllItems(data: Option<seq<Page>>): (r: seq<JsValue>)
    ensures data.None? ==> r == []
  {
    if data.Some? then Flatten(data.value) else []
  }

  /** The number of items over all pages. */
  function ItemCount(pages: seq<Page>): nat {
    if pages == [] then 0 else |PageItems(pages[0])| + ItemCount(pages[1..])
  }

  /** Loading more pages appends their items after the ones already shown. */
  lemma {:induction false} FlattenAppend(a: seq<Page>, b: seq<Page>)
    ensures Flatten(a + b) == Flatten(a) + Flatten(b)
    decreases |a|
  {
    if a == [] {
      assert a + b == b;
    } else {
      assert (a + b)[0] == a[0];
      assert (a + b)[1..] == a[1..] + b;
      FlattenAppend(a[1..], b);
    }
  }

  /** The flattened list holds as many items as the pages together, and pages without data add none. */
  lemma {:induction false} FlattenCounts(pages: seq<Page>)
    ensures |Flatten(pages)| == ItemCount(pages)
    ensures (forall i :: 0 <= i < |pages| ==> pages[i].None?) ==> Flatten(pages) == []
  {
    if pages != [] {
      FlattenCounts(pages[1..]);
    }
  }

  /** The item at each position comes from its page, in page order. */
  lemma {:induction false} FlattenPositions(page: Page, rest: seq<Page>)
    ensures var all := Flatten([page] + rest);
            all[..|PageItems(page)|] == PageItems(page) && all[|PageItems(page)|..] == Flatten(rest)
  {
    assert ([page] + rest)[0] == page && ([page] + rest)[1..] == rest;
  }

  /** `hasNextPage || false`: unknown counts as no next page. */
  function HasNextPage(reported: Option<bool>): (r: bool)
    ensures r <==> reported == Some(true)
  {
    reported.GetOr(false)
  }
}
