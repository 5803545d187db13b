/** The cook's dashboard: status changes on the local order list, the edit modal's item
    operations with their incremental subtotal, and the status tabs. */
module CookDashboard {
  import opened Common

  datatype CookItem = CookItem(name: string, quantity: real, price: real)

  /** An order as the dashboard holds it; `id` is `_id.$oid`. */
  datatype CookOrder = CookOrder(id: string, customerName: string, items: seq<CookItem>, orderType: string,
                                 tableNumber: string, subtotal: real, status: string)

  function ItemAmount(it: CookItem): real
  {
    it.quantity * it.price
  }

  function ItemsAmount(items: seq<CookItem>): real
  {
    Sum(items, ItemAmount)
  }

  /** How far the order's subtotal is from Σ quantity × price. The edits below keep it
      fixed, so a subtotal that matched its items keeps matching. */
  function Drift(o: CookOrder): real
  {
    o.subtotal - ItemsAmount(o.items)
  }

  /** `handleStatusChange`: only the orders with that id take the new status. */
  function StatusChanged(orders: seq<CookOrder>, orderId: string, status: string): (r: seq<CookOrder>)
    ensures |r| == |orders|
    ensures forall i :: 0 <= i < |orders| && orders[i].id == orderId ==> r[i] == orders[i].(status := status)
    ensures forall i :: 0 <= i < |orders| && orders[i].id != orderId ==> r[i] == orders[i]
  {
    seq(|orders|, i requires 0 <= i < |orders| =>
      if orders[i].id == orderId then orders[i].(status := status) else orders[i])
  }

  /** The new-order light goes off when an order is marked completed and is otherwise
      left as it was. */
  function NotificationAfter(notification: bool, status: string): (r: bool)
    ensures status == "completed" ==> !r
    ensures status != "completed" ==> r == notification
  {
    if status == "completed" then false else notification
  }

  /** `addNewItem`: an item without a name or with a price not above 0 is ignored;
      otherwise it is appended and its quantity × price added to the subtotal. */
  function WithNewItem(o: CookOrder, it: CookItem): (r: CookOrder)
    ensures it.name == "" || it.price <= 0.0 ==> r == o
    ensures it.name != "" && it.price > 0.0 ==>
              r == o.(items := o.items + [it], subtotal := o.subtotal + it.quantity * it.price)
    ensures Drift(r) == Drift(o)
  {
    if it.name == "" || it.price <= 0.0 then o
    else
      SumAppend(o.items, [it], ItemAmount);
      SumSingleton(it, ItemAmount);
      o.(items := o.items + [it], subtotal := o.subtotal + it.quantity * it.price)
  }

  /** `removeItem`: the indexed item is dropped and its quantity × price subtracted. */
  function WithoutItem(o: CookOrder, index: nat): (r: CookOrder)
    requires index < |o.items|
    ensures r.items == RemoveAt(o.items, index)
    ensures r.subtotal == o.subtotal - o.items[index].quantity * o.items[index].price
    ensures r == o.(items := r.items, subtotal := r.subtotal)
    ensures Drift(r) == Drift(o)
  {
    SumRemoveAt(o.items, index, ItemAmount);
    o.(items := RemoveAt(o.items, index), subtotal := o.subtotal - o.items[index].quantity * o.items[index].price)
  }

  /** The field an edit-modal input writes, with its parsed value. */
  datatype ItemEdit = NameEdit(name: string) | QuantityEdit(quantity: real) | PriceEdit(price: real)

  function Edited(it: CookItem, e: ItemEdit): CookItem
  {
    match e
    case NameEdit(n) => it.(name := n)
    case QuantityEdit(q) => it.(quantity := q)
    case PriceEdit(p) => it.(price := p)
  }

  /** `(value - oldValue)` times the other field for a quantity or price edit; 0 for a
      name edit. */
  function SubtotalChange(it: CookItem, e: ItemEdit): real
  {
    match e
    case NameEdit(_) => 0.0
    case QuantityEdit(q) => (q - it.quantity) * it.price
    case PriceEdit(p) => (p - it.price) * it.quantity
  }

  lemma SubtotalChangeIsAmountChange(it: CookItem, e: ItemEdit)
    ensures SubtotalChange(it, e) == ItemAmount(Edited(it, e)) - ItemAmount(it)
  {
    match e
    case NameEdit(_) =>
    case QuantityEdit(q) =>
      assert (q - it.quantity) * it.price == q * it.price - it.quantity * it.price;
    case PriceEdit(p) =>
      assert (p - it.price) * it.quantity == it.quantity * p - it.quantity * it.price;
  }

  /** `updateItem`: the indexed item takes the edit, and the subtotal shifts by the
      change in that item's quantity × price. */
  function WithItemEdit(o: CookOrder, index: nat, e: ItemEdit): (r: CookOrder)
    requires index < |o.items|
    ensures r.items == o.items[index := Edited(o.items[index], e)]
    ensures e.NameEdit? ==> r.subtotal == o.subtotal
    ensures e.QuantityEdit? ==> r.subtotal == o.subtotal + (e.quantity - o.items[index].quantity) * o.items[index].price
    ensures e.PriceEdit? ==> r.subtotal == o.subtotal + (e.price - o.items[index].price) * o.items[index].quantity
    ensures r == o.(items := r.items, subtotal := r.subtotal)
    ensures Drift(r) == Drift(o)
  {
    SumUpdate(o.items, index, Edited(o.items[index], e), ItemAmount);
    SubtotalChangeIsAmountChange(o.items[index], e);
    o.(items := o.items[index := Edited(o.items[index], e)], subtotal := o.subtotal + SubtotalChange(o.items[index], e))
  }

  /** An order whose subtotal matched its items still matches after each of the three
      edits. */
  lemma EditsKeepSubtotalExact(o: CookOrder, it: CookItem, index: nat, e: ItemEdit)
    requires o.subtotal == ItemsAmount(o.items)
    ensures WithNewItem(o, it).subtotal == ItemsAmount(WithNewItem(o, it).items)
    ensures index < |o.items| ==> WithoutItem(o, index).subtotal == ItemsAmount(WithoutItem(o, index).items)
    ensures index < |o.items| ==> WithItemEdit(o, index, e).subtotal == ItemsAmount(WithItemEdit(o, index, e).items)
  {
  }

  /** `saveEditedOrder`: the entries with the edited order's id are replaced by it. */
  function SavedEdit(orders: seq<CookOrder>, edited: CookOrder): (r: seq<CookOrder>)
    ensures |r| == |orders|
    ensures forall i :: 0 <= i < |orders| ==> r[i] == (if orders[i].id == edited.id then edited else orders[i])
  {
    ReplaceWhere(orders, HasOrderId(edited.id), edited)
  }

  function HasOrderId(id: string): CookOrder -> bool
  {
    (o: CookOrder) => o.id == id
  }

  function HasStatus(status: string): CookOrder -> bool
  {
    (o: CookOrder) => o.status == status
  }

  /** The orders shown under a tab: those whose status is the tab's, in list order. */
  function TabOrders(orders: seq<CookOrder>, activeTab: string): (r: seq<CookOrder>)
    ensures SelectedAt(r, orders, HasStatus(activeTab), KeptPositions(orders, HasStatus(activeTab)))
    ensures forall o :: o in r <==> o in orders && o.status == activeTab
  {
    FilterSelects(orders, HasStatus(activeTab));
    FilterMembership(orders, HasStatus(activeTab));
    Filter(orders, HasStatus(activeTab))
  }

  /** A tab's badge. */
  function TabCount(orders: seq<CookOrder>, status: string): nat
  {
    Count(orders, HasStatus(status))
  }

  lemma {:induction false} FilterLengthIsCount(orders: seq<CookOrder>, status: string)
    ensures |Filter(orders, HasStatus(status))| == Count(orders, HasStatus(status))
  {
    if |orders| > 0 {
      FilterLengthIsCount(orders[1..], status);
    }
  }

  /** Each badge counts exactly the orders its tab lists. */
  lemma BadgeMatchesTab(orders: seq<CookOrder>, status: string)
    ensures TabCount(orders, status) == |TabOrders(orders, status)|
  {
    FilterLengthIsCount(orders, status);
  }

  /** The three badges together never count more orders than there are. */
  lemma {:induction false} BadgesWithinOrders(orders: seq<CookOrder>)
    ensures TabCount(orders, "pending") + TabCount(orders, "in-progress") + TabCount(orders, "completed") <= |orders|
  {
    if |orders| > 0 {
      BadgesWithinOrders(orders[1..]);
    }
  }
}
