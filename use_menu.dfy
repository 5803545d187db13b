/** The customer menu hook: the category tabs built from the fetched items and the
    category-and-search filter. */
module UseMenu {
  import opened Common
  import opened MenuItemModel

  /** The tabs shown before any fetch. */
  const StaticCategories: seq<string> := ["Pizza", "Burgers", "Pasta", "Salads", "Wings", "Vegetarian"]

  const AllCategory := "All"

  lemma StaticCategoriesDistinct()
    ensures NoDuplicates(StaticCategories)
  {
  }

  /** `data.map((item) => item.category)`. */
  function ItemCategories(items: seq<MenuItem>): (r: seq<string>)
    ensures |r| == |items|
    ensures forall i :: 0 <= i < |items| ==> r[i] == items[i].category
  {
    seq(|items|, i requires 0 <= i < |items| => items[i].category)
  }

  /** The static categories followed by the unseen item categories, de-duplicated. */
  function MergedCategories(items: seq<MenuItem>): seq<string>
  {
    Dedup(StaticCategories + Dedup(ItemCategories(items)))
  }

  lemma MergedCategoriesProperties(items: seq<MenuItem>)
    ensures StaticCategories <= MergedCategories(items)
    ensures NoDuplicates(MergedCategories(items))
    ensures forall c :: c in MergedCategories(items) <==> c in StaticCategories || c in ItemCategories(items)
  {
    var dynamic := Dedup(ItemCategories(items));
    DedupProperties(ItemCategories(items));
    DedupProperties(StaticCategories + dynamic);
    DedupPrefix(StaticCategories, dynamic);
    DedupOfDistinct(StaticCategories);
  }

  /** A sequence with a new head has no repeats exactly when its tail has none and does
      not hold the head. */
  lemma NoDuplicatesCons(x: string, s: seq<string>)
    ensures NoDuplicates([x] + s) <==> NoDuplicates(s) && x !in s
  {
    var t := [x] + s;
    assert forall i :: 0 < i < |t| ==> t[i] == s[i - 1];
    if x in s {
      var k :| 0 <= k < |s| && s[k] == x;
      assert t[0] == t[k + 1];
    } else {
      assert forall j :: 0 < j < |t| ==> t[j] != t[0];
    }
    assert forall i, j :: 0 <= i < j < |s| ==> (s[i] == s[j] <==> t[i + 1] == t[j + 1]);
  }

  /** The tabs after a fetch: "All", then the static categories, then each item category
      not seen before, in order of first appearance. "All" itself is not de-duplicated
      against the rest. */
  function FetchedCategories(items: seq<MenuItem>): (r: seq<string>)
    ensures |r| > 0 && r[0] == AllCategory
    ensures StaticCategories <= r[1..]
    ensures NoDuplicates(r[1..])
    ensures forall c :: c in r[1..] <==> c in StaticCategories || c in ItemCategories(items)
    ensures NoDuplicates(r) <==> AllCategory !in ItemCategories(items)
  {
    MergedCategoriesProperties(items);
    NoDuplicatesCons(AllCategory, MergedCategories(items));
    assert ([AllCategory] + MergedCategories(items))[1..] == MergedCategories(items);
    [AllCategory] + MergedCategories(items)
  }

  /** What `response.data.menuItems` turned out to be. */
  datatype FetchOutcome = ItemArray(data: seq<MenuItem>) | NotAnArray | RequestFailed

  datatype MenuState = MenuState(menuItems: seq<MenuItem>, categories: seq<string>, error: Option<string>,
                                 loading: bool)

  const InitialMenu := MenuState([], StaticCategories, None, true)

  const FetchError := "Failed to fetch menu items"

  /** The hook's state after `fetchMenuItems`: an array replaces the items and the tabs;
      anything else only records the error. Loading ends either way. */
  function AfterFetch(s: MenuState, outcome: FetchOutcome): (r: MenuState)
    ensures !r.loading
    ensures outcome.ItemArray? ==> r.menuItems == outcome.data && r.categories == FetchedCategories(outcome.data)
                                   && r.error == s.error
    ensures !outcome.ItemArray? ==> r.menuItems == s.menuItems && r.categories == s.categories
                                    && r.error == Some(FetchError)
  {
    match outcome
    case ItemArray(data) => s.(menuItems := data, categories := FetchedCategories(data), loading := false)
    case _ => s.(error := Some(FetchError), loading := false)
  }

  /** One item's verdict: the active tab is "All" or its category, and its lower-cased
      name contains the lower-cased query. */
  predicate Shown(activeCategory: string, searchQuery: string, m: MenuItem)
  {
    (activeCategory == AllCategory || m.category == activeCategory)
    && Contains(Lower(m.name), Lower(searchQuery))
  }

  function ShownBy(activeCategory: string, searchQuery: string): MenuItem -> bool
  {
    (m: MenuItem) => Shown(activeCategory, searchQuery, m)
  }

  /** `filteredItems`: the shown items, in menu order. */
  function FilteredItems(items: seq<MenuItem>, activeCategory: string, searchQuery: string): (r: seq<MenuItem>)
    ensures SelectedAt(r, items, ShownBy(activeCategory, searchQuery), KeptPositions(items, ShownBy(activeCategory, searchQuery)))
    ensures forall i :: 0 <= i < |r| ==> r[i] in items && Shown(activeCategory, searchQuery, r[i])
    ensures forall i :: 0 <= i < |items| && Shown(activeCategory, searchQuery, items[i]) ==> items[i] in r
  {
    FilterByIndex(items, ShownBy(activeCategory, searchQuery));
    FilterSelects(items, ShownBy(activeCategory, searchQuery));
    Filter(items, ShownBy(activeCategory, searchQuery))
  }

  /** The initial tab and an empty search show the whole menu. */
  lemma AllTabEmptyQueryShowsAll(items: seq<MenuItem>)
    ensures FilteredItems(items, AllCategory, "") == items
  {
    LowerEmpty();
    forall i | 0 <= i < |items|
      ensures ShownBy(AllCategory, "")(items[i])
    {
      ContainsEmpty(Lower(items[i].name));
    }
    FilterAll(items, ShownBy(AllCategory, ""));
  }
}
