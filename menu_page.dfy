/** The admin menu page: the sortable, searchable table of menu items and the local
    list updates after a delete or a save. */
module MenuPage {
  import opened Common
  import opened MenuItemModel
  import opened Sorting

  /** The columns the table can be sorted by. */
  datatype SortField = ByName | ByCategory | ByPrice
  datatype Direction = Ascending | Descending
  datatype SortConfig = SortConfig(field: SortField, direction: Direction)

  const InitialSort := SortConfig(ByName, Ascending)

  /** `a[key]` for the sort column. */
  function KeyOf(field: SortField): MenuItem -> SortKey
  {
    (m: MenuItem) =>
      match field
      case ByName => Text(m.name)
      case ByCategory => Text(m.category)
      case ByPrice => Num(m.price)
  }

  /** `sortedItems`: a sorted copy of the items, ascending or descending on the column,
      ties in list order. */
  function SortedItems(items: seq<MenuItem>, config: SortConfig): (r: seq<MenuItem>)
    ensures SortedBy(r, KeyOf(config.field), config.direction == Descending)
    ensures multiset(r) == multiset(items)
  {
    SortCorrect(items, KeyOf(config.field), config.direction == Descending);
    Sort(items, KeyOf(config.field), config.direction == Descending)
  }

  /** One row's verdict: its name or description contains the search term ignoring
      case, and the category and status filters are "all" or match. */
  predicate Matches(searchTerm: string, category: string, status: string, m: MenuItem)
  {
    && (Contains(Lower(m.name), Lower(searchTerm)) || Contains(Lower(m.description.GetOr("")), Lower(searchTerm)))
    && (category == "all" || m.category == category)
    && (status == "all" || m.status == status)
  }

  function MatchesBy(searchTerm: string, category: string, status: string): MenuItem -> bool
  {
    (m: MenuItem) => Matches(searchTerm, category, status, m)
  }

  /** `filteredItems`: the matching rows of the sorted copy. They are still sorted, and an
      item is listed exactly when it is on the menu and matches. */
  function FilteredItems(items: seq<MenuItem>, config: SortConfig, searchTerm: string, category: string,
                         status: string): (r: seq<MenuItem>)
    ensures SortedBy(r, KeyOf(config.field), config.direction == Descending)
    ensures forall m :: m in r <==> m in items && Matches(searchTerm, category, status, m)
    ensures SelectedAt(r, SortedItems(items, config), MatchesBy(searchTerm, category, status),
                       KeptPositions(SortedItems(items, config), MatchesBy(searchTerm, category, status)))
  {
    var sorted := SortedItems(items, config);
    FilterSelects(sorted, MatchesBy(searchTerm, category, status));
    FilterKeepsSorted(sorted, MatchesBy(searchTerm, category, status), KeyOf(config.field),
                      config.direction == Descending);
    assert forall m :: m in sorted <==> m in multiset(items);
    FilterMembership(sorted, MatchesBy(searchTerm, category, status));
    Filter(sorted, MatchesBy(searchTerm, category, status))
  }

  /** With every filter open and an empty search, the table lists every item. */
  lemma OpenFiltersListEverything(items: seq<MenuItem>, config: SortConfig, m: MenuItem)
    requires m in items
    ensures m in FilteredItems(items, config, "", "all", "all")
  {
    LowerEmpty();
    ContainsEmpty(Lower(m.name));
  }

  /** `requestSort`: descending only when the same column is already ascending. */
  function RequestSort(config: SortConfig, field: SortField): (r: SortConfig)
    ensures r.field == field
    ensures r.direction == Descending <==> config.field == field && config.direction == Ascending
  {
    if config.field == field && config.direction == Ascending then SortConfig(field, Descending)
    else SortConfig(field, Ascending)
  }

  /** Clicking the same column header again flips the direction. */
  lemma RequestSortToggles(config: SortConfig, field: SortField)
    ensures RequestSort(RequestSort(config, field), field).direction != RequestSort(config, field).direction
    ensures RequestSort(RequestSort(config, field), field).field == field
  {
  }

  function NotId(id: Id): MenuItem -> bool
  {
    (m: MenuItem) => m.id != id
  }

  /** The list after a successful delete: every item with the id is gone, the others
      stay in order. */
  function Deleted(items: seq<MenuItem>, id: Id): (r: seq<MenuItem>)
    ensures SelectedAt(r, items, NotId(id), KeptPositions(items, NotId(id)))
    ensures forall i :: 0 <= i < |r| ==> r[i].id != id && r[i] in items
    ensures forall i :: 0 <= i < |items| && items[i].id != id ==> items[i] in r
  {
    FilterByIndex(items, NotId(id));
    FilterSelects(items, NotId(id));
    Filter(items, NotId(id))
  }

  function HasId(id: Id): MenuItem -> bool
  {
    (m: MenuItem) => m.id == id
  }

  /** `handleSave`: when editing, every entry with the saved item's id is replaced by it
      in place and the others are untouched; when adding, the saved item is appended. */
  function Saved(items: seq<MenuItem>, saved: MenuItem, editing: bool): (r: seq<MenuItem>)
    ensures editing ==> |r| == |items|
    ensures editing ==> forall i :: 0 <= i < |items| ==> r[i] == (if items[i].id == saved.id then saved else items[i])
    ensures !editing ==> |r| == |items| + 1 && r[..|items|] == items && r[|items|] == saved
  {
    if editing then ReplaceWhere(items, HasId(saved.id), saved) else items + [saved]
  }

  lemma {:induction false} ReplacedThenDeleted(items: seq<MenuItem>, saved: MenuItem)
    ensures Deleted(ReplaceWhere(items, HasId(saved.id), saved), saved.id) == Deleted(items, saved.id)
  {
    if |items| > 0 {
      ReplacedThenDeleted(items[1..], saved);
      assert ReplaceWhere(items, HasId(saved.id), saved)[1..] == ReplaceWhere(items[1..], HasId(saved.id), saved);
    }
  }

  /** Saving an item and then deleting it leaves the list as deleting it alone would:
      the two updates agree on which entries carry the id. */
  lemma SaveThenDelete(items: seq<MenuItem>, saved: MenuItem, editing: bool)
    ensures Deleted(Saved(items, saved, editing), saved.id) == Deleted(items, saved.id)
  {
    if editing {
      ReplacedThenDeleted(items, saved);
    } else {
      FilterAppend(items, [saved], NotId(saved.id));
      assert [saved][1..] == [];
    }
  }

  /** The body the add and update routes answer with: a message and the stored item.
      The modal hands this whole body to the page's save handler. */
  datatype SaveReply = SaveReply(message: string, menuItem: MenuItem)

  /** An entry of the page's list as it can end up: a menu item, or a reply body stored
      in place of one. */
  datatype ListEntry = ItemEntry(item: MenuItem) | ReplyEntry(reply: SaveReply)

  /** `entry._id`: a reply body has no `_id` field, so it reads as undefined. */
  function EntryId(e: ListEntry): (r: Option<Id>)
    ensures r.Some? <==> e.ItemEntry?
    ensures e.ItemEntry? ==> r.value == e.item.id
  {
    match e
    case ItemEntry(m) => Some(m.id)
    case ReplyEntry(_) => None
  }

  function Entries(items: seq<MenuItem>): (r: seq<ListEntry>)
    ensures |r| == |items|
    ensures forall i :: 0 <= i < |items| ==> r[i] == ItemEntry(items[i])
  {
    seq(|items|, i requires 0 <= i < |items| => ItemEntry(items[i]))
  }

  /** The next render reads `name` and `description` of every entry, which only a menu
      item has. */
  predicate Renderable(list: seq<ListEntry>)
  {
    forall i :: 0 <= i < |list| ==> list[i].ItemEntry?
  }

  /** The save handler as the page and the modal wire it: it receives the reply body as
      the saved item, matches entries on `_id` when editing and appends when adding. */
  function SavedReplyAsWritten(items: seq<MenuItem>, reply: SaveReply, editing: bool): (r: seq<ListEntry>)
    ensures |r| == if editing then |items| else |items| + 1
  {
    var saved := ReplyEntry(reply);
    var list := Entries(items);
    if editing then seq(|list|, i requires 0 <= i < |list| => if EntryId(list[i]) == EntryId(saved) then saved else list[i])
    else list + [saved]
  }

  /** As written, an edit changes nothing: no item's id equals the reply's missing one,
      so the edited item never reaches the list. */
  lemma EditedReplyIsLost(items: seq<MenuItem>, reply: SaveReply)
    ensures SavedReplyAsWritten(items, reply, true) == Entries(items)
    ensures reply.menuItem !in items ==> ItemEntry(reply.menuItem) !in SavedReplyAsWritten(items, reply, true)
  {
    var r := SavedReplyAsWritten(items, reply, true);
    forall i | 0 <= i < |items|
      ensures r[i] == ItemEntry(items[i])
    {
      assert EntryId(Entries(items)[i]).Some?;
    }
  }

  /** As written, an add stores the reply body itself, so the list can no longer be
      rendered. */
  lemma AddedReplyBreaksRender(items: seq<MenuItem>, reply: SaveReply)
    ensures SavedReplyAsWritten(items, reply, false)[|items|] == ReplyEntry(reply)
    ensures !Renderable(SavedReplyAsWritten(items, reply, false))
  {
  }

  /** The intended hand-off: the page saves the reply's `menuItem`. */
  function SavedReply(items: seq<MenuItem>, reply: SaveReply, editing: bool): (r: seq<MenuItem>)
    ensures editing ==> |r| == |items|
    ensures editing ==> forall i :: 0 <= i < |items| ==>
              r[i] == (if items[i].id == reply.menuItem.id then reply.menuItem else items[i])
    ensures !editing ==> r == items + [reply.menuItem]
  {
    Saved(items, reply.menuItem, editing)
  }

  /** With the reply unwrapped, the saved item is shown after an add, and after an edit
      of an item the list holds. */
  lemma SavedReplyShowsItem(items: seq<MenuItem>, reply: SaveReply, editing: bool)
    requires editing ==> exists i :: 0 <= i < |items| && items[i].id == reply.menuItem.id
    ensures reply.menuItem in SavedReply(items, reply, editing)
  {
    var r := SavedReply(items, reply, editing);
    if editing {
      var i :| 0 <= i < |items| && items[i].id == reply.menuItem.id;
      assert r[i] == reply.menuItem;
    } else {
      assert r[|items|] == reply.menuItem;
    }
  }
}
