/**
 * The list feature's query keys and optimistic cache updaters (src/modules/list/hooks/useListQuery.ts).
 * A cached list that has not been fetched is `None`; `Date.now()` is the parameter `now`.
 */
module ListQuery {
  import opened Wrappers
  import opened Strings
  import opened JsValues
  import opened ApiTypes
  import Client

  datatype ListItem = ListItem(id: string, name: string, email: string, role: string, status: string)

  datatype CreateListItemData = CreateListItemData(name: string, email: string, role: string)

  /** `Partial<CreateListItemData> & {id}`: a field left out is `None`. */
  datatype UpdateListItemData = UpdateListItemData(id: string, name: Option<string>, email: Option<string>, role: Option<string>)

  type QueryKey = seq<string>

  // ---------------------------------------------------------------- LIST_KEYS

  const AllKey: QueryKey := ["list"]

  function ItemsKey(): (k: QueryKey)
    ensures k == AllKey + ["items"]
  {
    AllKey + ["items"]
  }

  function ItemKey(id: string): (k: QueryKey)
    ensures |k| == 3 && k[..2] == ItemsKey() && k[2] == id
  {
    ItemsKey() + [id]
  }

  function SearchKey(term: string): (k: QueryKey)
    ensures |k| == 4 && k[..2] == ItemsKey() && k[2] == "search" && k[3] == term
  {
    ItemsKey() + ["search", term]
  }

  /** Item and search keys sit under the items key and never coincide; each is determined by its argument. */
  lemma {:induction false} KeysApart(id: string, term: string, id2: string, term2: string)
    ensures ItemKey(id) != SearchKey(term)
    ensures ItemKey(id) == ItemKey(id2) ==> id == id2
    ensures SearchKey(term) == SearchKey(term2) ==> term == term2
  {
    if ItemKey(id) == ItemKey(id2) {
      assert ItemKey(id)[2] == ItemKey(id2)[2];
    }
    if SearchKey(term) == SearchKey(term2) {
      assert SearchKey(term)[3] == SearchKey(term2)[3];
    }
  }

  // ---------------------------------------------------------------- useListItems

  /** The request options of `useListItems`: the cache is used, with a 60 s ttl. */
  const ListRequestConfig: RequestConfig := RequestConfig(false, false, false, Some(60000))

  /** The query key and request params `useListItems(searchTerm)` uses: a non-empty term selects the search. */
  function ListItemsQuery(searchTerm: Option<string>): (r: (QueryKey, JsValue))
    ensures searchTerm.Some? && searchTerm.value != "" ==>
              r == (SearchKey(searchTerm.value), Obj([("search", Str(searchTerm.value))]))
    ensures !(searchTerm.Some? && searchTerm.value != "") ==> r == (ItemsKey(), Undefined)
  {
    if searchTerm.Some? && searchTerm.value != "" then
      (SearchKey(searchTerm.value), Obj([("search", Str(searchTerm.value))]))
    else
      (ItemsKey(), Undefined)
  }

  /** Listing with no search term reads the same client cache entry as listing with `{}`; the entry lives 60 s. */
  lemma {:induction false} UnsearchedListSharesCacheEntry(searchTerm: Option<string>)
    requires !(searchTerm.Some? && searchTerm.value != "")
    ensures Client.GenerateCacheKey("GET", "/list/items", ListItemsQuery(searchTerm).1) == "api_cache_GET_/list/items_{}"
    ensures Client.EffectiveTtl(ListRequestConfig) == 60000
  {
    Client.CacheKeyIgnoresFalsyParams("/list/items", Undefined);
  }

  // ---------------------------------------------------------------- optimistic updaters

  /** The placeholder a create shows until the server answers. */
  function TemporaryItem(v: CreateListItemData, now: int): ListItem {
    ListItem("temp-" + IntToString(now), v.name, v.email, v.role, "Active")
  }

  /** The create updater: the placeholder appended to the cached list, or a list of it alone. */
  function CreateUpdate(cached: Option<seq<ListItem>>, v: CreateListItemData, now: int): (r: seq<ListItem>)
    ensures var before := cached.GetOr([]);
            |r| == |before| + 1 && r[..|before|] == before && r[|before|] == TemporaryItem(v, now)
  {
    if cached.Some? then cached.value + [TemporaryItem(v, now)] else [TemporaryItem(v, now)]
  }

  /** `{...item, ...variables}`: every field the update supplies replaces the item's. */
  function Overlay(item: ListItem, v: UpdateListItemData): (r: ListItem)
    ensures r.id == v.id && r.status == item.status
    ensures r.name == v.name.GetOr(item.name) && r.email == v.email.GetOr(item.email) && r.role == v.role.GetOr(item.role)
    ensures v.name.None? && v.email.None? && v.role.None? ==> r == item.(id := v.id)
  {
    ListItem(v.id, v.name.GetOr(item.name), v.email.GetOr(item.email), v.role.GetOr(item.role), item.status)
  }

  /** `old.map(item => item.id === variables.id ? {...item, ...variables} : item)`. */
  function UpdateAll(items: seq<ListItem>, v: UpdateListItemData): (r: seq<ListItem>)
    ensures |r| == |items|
    ensures forall i :: 0 <= i < |items| ==> r[i] == if items[i].id == v.id then Overlay(items[i], v) else items[i]
  {
    if items == [] then [] else [if items[0].id == v.id then Overlay(items[0], v) else items[0]] + UpdateAll(items[1..], v)
  }

  /** The update updater: an unfetched list stays unfetched. */
  function UpdateUpdate(cached: Option<seq<ListItem>>, v: UpdateListItemData): (r: Option<seq<ListItem>>)
    ensures cached.None? <==> r.None?
  {
    if cached.None? then None else Some(UpdateAll(cached.value, v))
  }

  /** An update keeps every id and status, and applying it twice is applying it once. */
  lemma {:induction false} UpdateKeepsIdsAndSettles(items: seq<ListItem>, v: UpdateListItemData)
    ensures forall i :: 0 <= i < |items| ==>
              UpdateAll(items, v)[i].id == items[i].id && UpdateAll(items, v)[i].status == items[i].status
    ensures UpdateAll(UpdateAll(items, v), v) == UpdateAll(items, v)
  {
    var once := UpdateAll(items, v);
    var twice := UpdateAll(once, v);
    forall i | 0 <= i < |items|
      ensures twice[i] == once[i]
    {
      if items[i].id == v.id {
        assert once[i] == Overlay(items[i], v) && once[i].id == v.id;
      }
    }
  }

  /** `old.filter(item => item.id !== variables.id)`. */
  function RemoveId(items: seq<ListItem>, id: string): (r: seq<ListItem>)
    ensures |r| <= |items|
    ensures forall i :: 0 <= i < |r| ==> r[i].id != id && r[i] in items
  {
    if items == [] then []
    else if items[0].id != id then [items[0]] + RemoveId(items[1..], id)
    else RemoveId(items[1..], id)
  }

  /** The delete updater: an unfetched list stays unfetched. */
  function DeleteUpdate(cached: Option<seq<ListItem>>, id: string): (r: Option<seq<ListItem>>)
    ensures cached.None? <==> r.None?
  {
    if cached.None? then None else Some(RemoveId(cached.value, id))
  }

  /** Removal works piece by piece: it keeps the other items in their relative order. */
  lemma {:induction false} RemoveIdDistributes(a: seq<ListItem>, b: seq<ListItem>, id: string)
    ensures RemoveId(a + b, id) == RemoveId(a, id) + RemoveId(b, id)
    decreases |a|
  {
    if a == [] {
      assert a + b == b;
    } else {
      assert (a + b)[0] == a[0];
      assert (a + b)[1..] == a[1..] + b;
      RemoveIdDistributes(a[1..], b, id);
    }
  }

  /** A list without the id is left as it is. */
  lemma {:induction false} RemoveAbsentId(items: seq<ListItem>, id: string)
    requires forall i :: 0 <= i < |items| ==> items[i].id != id
    ensures RemoveId(items, id) == items
    decreases |items|
  {
    if items != [] {
      RemoveAbsentId(items[1..], id);
    }
  }

  /** Deleting twice is deleting once. */
  lemma {:induction false} DeleteIsIdempotent(cached: Option<seq<ListItem>>, id: string)
    ensures DeleteUpdate(DeleteUpdate(cached, id), id) == DeleteUpdate(cached, id)
  {
    if cached.Some? {
      RemoveAbsentId(RemoveId(cached.value, id), id);
    }
  }
}
