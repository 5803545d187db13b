/** The order handlers: create an order, add items to it, change its status, complete a
    table's open orders, edit it, and send it to the kitchen (KOT). Each handler checks
    its guards in source order and answers with the first one that fails. */
module OrderController {
  import opened Common
  import opened OrderModel
  import opened TableModel
  import opened Store

  // ---- the request item checks shared by createOrder and addItemToOrder ----

  /** The first check a request item fails: a name that is a non-empty string, then a
      quantity and a price that are numbers above 0. */
  function ItemError(it: ItemFields): Option<string>
  {
    if !Truthy(it.name) then Some("Item name is required and should be a string")
    else if it.quantity.None? || it.quantity.value <= 0.0 then Some("Item quantity must be a positive number")
    else if it.price.None? || it.price.value <= 0.0 then Some("Item price must be a positive number")
    else None
  }

  /** The message of the first failing item, as the checking loop returns at the first
      failure. */
  function FirstItemError(items: seq<ItemFields>): (r: Option<string>)
    ensures r.None? <==> forall i :: 0 <= i < |items| ==> ItemError(items[i]).None?
    ensures r.Some? ==> exists i :: 0 <= i < |items| && ItemError(items[i]) == r
                                   && forall j :: 0 <= j < i ==> ItemError(items[j]).None?
  {
    match FindFirst(items, (it: ItemFields) => ItemError(it).Some?)
    case None => None
    case Some(k) => ItemError(items[k])
  }

  /** Items that pass the checks have every field the schema requires, so they cast. */
  lemma {:induction false} CheckedItemsCast(items: seq<ItemFields>, firstId: Id)
    requires FirstItemError(items).None?
    ensures CastItems(items, firstId).Some?
  {
    assert forall i :: 0 <= i < |items| ==> ItemError(items[i]).None?;
  }

  /** price × quantity of a request item (both are numbers once the checks pass). */
  function FieldsLineTotal(it: ItemFields): real
  {
    it.price.GetOr(0.0) * it.quantity.GetOr(0.0)
  }

  /** The reduce over the request items equals Σ price × quantity over the stored items. */
  lemma {:induction false} CastItemsTotal(items: seq<ItemFields>, firstId: Id)
    requires CastItems(items, firstId).Some?
    ensures ItemsTotal(CastItems(items, firstId).value) == Sum(items, FieldsLineTotal)
  {
    if |items| > 0 {
      CastItemsTotal(items[1..], firstId + 1);
      var rest := CastItems(items[1..], firstId + 1).value;
      var all := CastItems(items, firstId).value;
      assert all[1..] == rest;
    }
  }

  // ---- createOrder ----

  datatype CreateOrderRequest = CreateOrderRequest(
    customerName: Option<string>,
    items: Option<seq<ItemFields>>,
    orderType: Option<string>,
    tableNumber: Option<string>,
    deliveryAddress: Option<string>,
    specialInstructions: Option<string>,
    paymentMethod: Option<string>,
    subtotal: Option<real>)

  /** createOrder's guards, in order. `None` means every guard passed. The active-order
      check is commented out in the source, so a table's booking state is never
      consulted: only its existence. */
  function CreateOrderGuard(tables: seq<Table>, req: CreateOrderRequest): (r: Option<Response>)
    ensures req.items.None? || |req.items.value| == 0 ==> r == Some(Response(400, "No order items"))
    ensures req.items.Some? && |req.items.value| > 0 && FirstItemError(req.items.value).Some? ==>
              r == Some(Response(400, FirstItemError(req.items.value).value))
    ensures r.None? <==>
              && req.items.Some? && |req.items.value| > 0 && FirstItemError(req.items.value).None?
              && (req.orderType == Some("dine-in") ==>
                    Truthy(req.tableNumber) && TableByNumber(tables, req.tableNumber.value).Some?)
              && (req.orderType == Some("delivery") ==> Truthy(req.deliveryAddress))
              && req.paymentMethod.Some? && ParsePaymentMethod(req.paymentMethod.value).Some?
    ensures r.Some? && r.value.status != 400 ==>
              && r.value.status == 404 && req.orderType == Some("dine-in") && Truthy(req.tableNumber)
              && TableByNumber(tables, req.tableNumber.value).None?
              && r.value.message == "Table number " + req.tableNumber.value + " not found"
  {
    if req.items.None? || |req.items.value| == 0 then Some(Response(400, "No order items"))
    else if FirstItemError(req.items.value).Some? then Some(Response(400, FirstItemError(req.items.value).value))
    else if req.orderType == Some("dine-in") && !Truthy(req.tableNumber) then
      Some(Response(400, "Table number is required for dine-in"))
    else if req.orderType == Some("dine-in") && TableByNumber(tables, req.tableNumber.value).None? then
      Some(Response(404, "Table number " + req.tableNumber.value + " not found"))
    else if req.orderType == Some("delivery") && !Truthy(req.deliveryAddress) then
      Some(Response(400, "Delivery address is required"))
    else if req.paymentMethod.None? || ParsePaymentMethod(req.paymentMethod.value).None? then
      Some(Response(400, "Invalid payment method"))
    else None
  }

  /** Replacing a table by one with the same number (booked or not, whatever its order)
      never changes createOrder's answer. */
  lemma CreateOrderIgnoresOccupancy(tables: seq<Table>, k: nat, t: Table, req: CreateOrderRequest)
    requires k < |tables| && t.tableNumber == tables[k].tableNumber
    ensures CreateOrderGuard(tables[k := t], req) == CreateOrderGuard(tables, req)
  {
    if req.tableNumber.Some? {
      var n := req.tableNumber.value;
      var updated := tables[k := t];
      assert forall j :: 0 <= j < |tables| ==> (updated[j].tableNumber == n <==> tables[j].tableNumber == n);
      assert TableByNumber(updated, n).None? <==> TableByNumber(tables, n).None?;
    }
  }

  /** The subtotal createOrder stores: the caller's value when it is truthy, otherwise
      Σ price × quantity over the items. */
  function CreateOrderSubtotal(req: CreateOrderRequest): real
  {
    if TruthyNum(req.subtotal) then req.subtotal.value else Sum(req.items.GetOr([]), FieldsLineTotal)
  }

  /** The object createOrder hands to `new Order(...)`: the table number only for dine-in,
      the address only for delivery, the order's instructions only when truthy, and never
      a phone number. */
  function CreateOrderFields(req: CreateOrderRequest): OrderFields
  {
    OrderFields(
      customerName := Some(req.customerName.GetOr("Guest")),
      items := req.items.GetOr([]),
      orderType := req.orderType,
      tableNumber := if req.orderType == Some("dine-in") then req.tableNumber else None,
      phoneNumber := None,
      deliveryAddress := if req.orderType == Some("delivery") then req.deliveryAddress else None,
      specialInstructions := if Truthy(req.specialInstructions) then req.specialInstructions else None,
      paymentMethod := req.paymentMethod,
      subtotal := Some(CreateOrderSubtotal(req)),
      status := None,
      sentToKOT := None)
  }

  /** What a successful save of createOrder's draft holds: a pending dine-in order that is
      not yet sent to the kitchen, on the requested table, with the trusted or computed
      subtotal. A delivery order (or one with no orderType) never passes validation,
      because no phone number is copied (respectively no table number). */
  lemma CreatedOrderShape(id: Id, req: CreateOrderRequest, o: Order)
    requires SaveNew(id, CreateOrderFields(req)) == Some(o)
    ensures req.orderType == Some("dine-in") && o.orderType == DineIn
    ensures o.status == Pending && IsActive(o.status) && !o.sentToKOT
    ensures o.tableNumber == req.tableNumber && Truthy(o.tableNumber)
    ensures o.subtotal == Some(CreateOrderSubtotal(req))
    ensures o.id == id && |o.items| == |req.items.GetOr([])|
  {
    var f := CreateOrderFields(req);
    assert Construct(id, f) == Some(o);
  }

  /** createOrder. On success the order is appended, its items take the ids after it, and
      the dine-in table is marked booked (`isBooked` = the new status is open, which always
      holds) and pointed at the new order, whatever it held before. */
  method CreateOrder(db: Db, req: CreateOrderRequest) returns (resp: Response, created: Option<Order>)
    requires db.Valid()
    modifies db
    ensures db.Valid()
    ensures CreateOrderGuard(old(db.tables), req).Some? ==>
              resp == CreateOrderGuard(old(db.tables), req).value && created.None?
              && db.Snapshot() == old(db.Snapshot())
    ensures CreateOrderGuard(old(db.tables), req).None? && SaveNew(old(db.nextId), CreateOrderFields(req)).None? ==>
              resp == Response(400, "Validation failed") && created.None?
              && db.Snapshot() == old(db.Snapshot())
    ensures CreateOrderGuard(old(db.tables), req).None? && SaveNew(old(db.nextId), CreateOrderFields(req)).Some? ==>
              && created == SaveNew(old(db.nextId), CreateOrderFields(req))
              && resp == Response(201, "")
              && db.orders == old(db.orders) + [created.value]
              && db.nextId == old(db.nextId) + 1 + |req.items.value|
              && OrderIdUnused(old(db.orders), created.value.id)
              && ItemIdsFresh(old(db.orders), created.value.items)
              && db.tables == OccupyByNumber(old(db.tables), req.tableNumber.value, true, created.value.id)
              && db.Snapshot() == old(db.Snapshot()).(orders := db.orders, tables := db.tables, nextId := db.nextId)
  {
    var g := CreateOrderGuard(db.tables, req);
    if g.Some? {
      return g.value, None;
    }
    var saved := SaveNew(db.nextId, CreateOrderFields(req));
    if saved.None? {
      return Response(400, "Validation failed"), None;
    }
    var o := saved.value;
    CreatedOrderShape(db.nextId, req, o);
    var next := db.nextId + 1 + |req.items.value|;
    assert forall j :: 0 <= j < |o.items| ==> o.items[j].id == db.nextId + 1 + j;
    NewOrderIds(db.orders, o, db.nextId, next);
    ghost var after := db.Snapshot().(orders := db.orders + [o], nextId := next);
    db.orders, db.nextId := db.orders + [o], next;
    assert db.Snapshot() == after;
    if req.orderType == Some("dine-in") {
      db.tables := OccupyByNumber(db.tables, req.tableNumber.value, IsActive(o.status), o.id);
    }
    return Response(201, ""), saved;
  }

  // ---- addItemToOrder ----

  datatype AddItemRequest = AddItemRequest(orderId: Id, newItems: Option<seq<ItemFields>>,
                                           tableNumber: Option<string>)

  /** addItemToOrder's guards, in order. A booked table whose currentOrderId is null makes
      `currentOrderId.toString()` throw, which the handler answers with 500. */
  function AddItemGuard(orders: seq<Order>, tables: seq<Table>, req: AddItemRequest): (r: Option<Response>)
    ensures req.newItems.None? || |req.newItems.value| == 0 ==> r == Some(Response(400, "No new items provided"))
    ensures req.newItems.Some? && |req.newItems.value| > 0 && FirstItemError(req.newItems.value).Some? ==>
              r == Some(Response(400, FirstItemError(req.newItems.value).value))
    ensures r.None? <==>
              && req.newItems.Some? && |req.newItems.value| > 0 && FirstItemError(req.newItems.value).None?
              && OrderIndex(orders, req.orderId).Some?
              && var o := orders[OrderIndex(orders, req.orderId).value];
                 && IsActive(o.status)
                 && (o.orderType == DineIn ==>
                       && Truthy(req.tableNumber) && o.tableNumber == req.tableNumber
                       && TableByNumber(tables, req.tableNumber.value).Some?
                       && var t := tables[TableByNumber(tables, req.tableNumber.value).value];
                          t.isBooked && t.currentOrderId == Some(req.orderId))
    ensures r.Some? && r.value.status == 404 && r.value.message == "Order not found" ==>
              OrderIndex(orders, req.orderId).None?
  {
    if req.newItems.None? || |req.newItems.value| == 0 then Some(Response(400, "No new items provided"))
    else if FirstItemError(req.newItems.value).Some? then Some(Response(400, FirstItemError(req.newItems.value).value))
    else match OrderIndex(orders, req.orderId)
      case None => Some(Response(404, "Order not found"))
      case Some(k) =>
        var o := orders[k];
        if !IsActive(o.status) then
          Some(Response(400, "Cannot add items to a completed, cancelled, or delivered order"))
        else if o.orderType == Delivery then None
        else if !Truthy(req.tableNumber) || o.tableNumber != req.tableNumber then
          Some(Response(400, "Table number mismatch or not provided"))
        else match TableByNumber(tables, req.tableNumber.value)
          case None => Some(Response(404, "Table number " + req.tableNumber.value + " not found"))
          case Some(j) =>
            var t := tables[j];
            if !t.isBooked then Some(Response(400, "Table is not booked for this order"))
            else if t.currentOrderId.None? then Some(Response(500, "Server Error"))
            else if t.currentOrderId != Some(req.orderId) then Some(Response(400, "Table is not booked for this order"))
            else None
  }

  /** The order after `items.push(...newItems)` and `subtotal += Σ price × quantity`. */
  function WithAddedItems(o: Order, added: seq<LineItem>, increment: real): Order
    requires o.subtotal.Some?
  {
    o.(items := o.items + added, subtotal := Some(o.subtotal.value + increment))
  }

  /** The incremental update keeps the subtotal equal to Σ price × quantity whenever it was
      before, and appends the new items after the old ones in order. */
  lemma AddedItemsKeepTotal(o: Order, items: seq<ItemFields>, firstId: Id)
    requires o.subtotal.Some? && o.subtotal.value == ItemsTotal(o.items)
    requires CastItems(items, firstId).Some?
    ensures var o2 := WithAddedItems(o, CastItems(items, firstId).value, Sum(items, FieldsLineTotal));
            && o2.subtotal == Some(ItemsTotal(o2.items))
            && o2.items[..|o.items|] == o.items
            && |o2.items| == |o.items| + |items|
  {
    var added := CastItems(items, firstId).value;
    CastItemsTotal(items, firstId);
    SumAppend(o.items, added, LineTotal);
    assert (o.items + added)[..|o.items|] == o.items;
  }

  /** addItemToOrder. On success the items are appended with fresh ids and the subtotal
      grows by their Σ price × quantity; a draft that fails the schema (for example a
      quantity between 0 and 1) is not saved and answers 500. */
  method AddItemToOrder(db: Db, req: AddItemRequest) returns (resp: Response, updated: Option<Order>)
    requires db.Valid()
    modifies db
    ensures db.Valid()
    ensures AddItemGuard(old(db.orders), old(db.tables), req).Some? ==>
              resp == AddItemGuard(old(db.orders), old(db.tables), req).value && updated.None?
              && db.Snapshot() == old(db.Snapshot())
    ensures AddItemGuard(old(db.orders), old(db.tables), req).None? ==>
              var k := OrderIndex(old(db.orders), req.orderId).value;
              var o2 := WithAddedItems(old(db.orders)[k], CastItems(req.newItems.value, old(db.nextId)).value,
                                       Sum(req.newItems.value, FieldsLineTotal));
              && (OrderValid(o2) ==>
                    && resp == Response(200, "") && updated == Some(o2)
                    && db.orders == old(db.orders)[k := o2]
                    && db.nextId == old(db.nextId) + |req.newItems.value|
                    && ItemIdsFresh(old(db.orders), CastItems(req.newItems.value, old(db.nextId)).value)
                    && db.Snapshot() == old(db.Snapshot()).(orders := db.orders, nextId := db.nextId))
              && (!OrderValid(o2) ==>
                    resp == Response(500, "Server Error") && updated.None? && db.Snapshot() == old(db.Snapshot()))
  {
    var g := AddItemGuard(db.orders, db.tables, req);
    if g.Some? {
      return g.value, None;
    }
    var k := OrderIndex(db.orders, req.orderId).value;
    CheckedItemsCast(req.newItems.value, db.nextId);
    var added := CastItems(req.newItems.value, db.nextId).value;
    var o2 := WithAddedItems(db.orders[k], added, Sum(req.newItems.value, FieldsLineTotal));
    if !OrderValid(o2) {
      return Response(500, "Server Error"), None;
    }
    AddedItemIds(db.orders, k, o2, added, db.nextId, db.nextId + |added|);
    ghost var after := db.Snapshot().(orders := db.orders[k := o2], nextId := db.nextId + |added|);
    db.orders, db.nextId := db.orders[k := o2], db.nextId + |added|;
    assert db.Snapshot() == after;
    return Response(200, ""), Some(o2);
  }

  // ---- updateOrderStatus ----

  /** updateOrderStatus. Any of the five statuses is accepted from any current status. The
      order is saved before its table is looked up, so a missing table answers 404 after
      the change; tables are never written. */
  method UpdateOrderStatus(db: Db, id: Id, status: Option<string>) returns (resp: Response)
    requires db.Valid()
    modifies db
    ensures db.Valid()
    ensures db.tables == old(db.tables)
    ensures status.None? || ParseStatus(status.value).None? ==>
              resp == Response(400, "Invalid status value.") && db.Snapshot() == old(db.Snapshot())
    ensures status.Some? && ParseStatus(status.value).Some? && OrderIndex(old(db.orders), id).None? ==>
              resp == Response(404, "Order not found.") && db.Snapshot() == old(db.Snapshot())
    ensures status.Some? && ParseStatus(status.value).Some? && OrderIndex(old(db.orders), id).Some? ==>
              var k := OrderIndex(old(db.orders), id).value;
              var o := old(db.orders)[k];
              && db.orders == old(db.orders)[k := o.(status := ParseStatus(status.value).value)]
              && db.Snapshot() == old(db.Snapshot()).(orders := db.orders)
              && (if o.orderType == DineIn && Truthy(o.tableNumber)
                     && TableByNumber(old(db.tables), o.tableNumber.value).None?
                  then resp == Response(404, "Table number " + o.tableNumber.value + " not found")
                  else resp == Response(200, "Order status updated successfully."))
  {
    if status.None? || ParseStatus(status.value).None? {
      return Response(400, "Invalid status value.");
    }
    var k := OrderIndex(db.orders, id);
    if k.None? {
      return Response(404, "Order not found.");
    }
    var o := db.orders[k.value];
    db.orders := db.orders[k.value := o.(status := ParseStatus(status.value).value)];
    if o.orderType == DineIn && Truthy(o.tableNumber) {
      if TableByNumber(db.tables, o.tableNumber.value).None? {
        return Response(404, "Table number " + o.tableNumber.value + " not found");
      }
    }
    return Response(200, "Order status updated successfully.");
  }

  // ---- completeOrder ----

  /** The filter `{ tableNumber, orderType: "dine-in", status: { $in: [pending, in-progress] } }`. */
  predicate OpenOnTable(o: Order, tableNumber: string)
  {
    o.tableNumber == Some(tableNumber) && o.orderType == DineIn && IsActive(o.status)
  }

  /** `updateMany(filter, { $set: { status: "completed" } })`. */
  function CompleteOpen(orders: seq<Order>, tableNumber: string): (r: seq<Order>)
    ensures |r| == |orders|
    ensures forall i :: 0 <= i < |r| ==> !OpenOnTable(r[i], tableNumber)
    ensures forall i :: 0 <= i < |r| ==>
              r[i] == (if OpenOnTable(orders[i], tableNumber) then orders[i].(status := Completed) else orders[i])
    ensures OrdersValid(orders) ==> OrdersValid(r)
  {
    seq(|orders|, i requires 0 <= i < |orders| =>
      if OpenOnTable(orders[i], tableNumber) then orders[i].(status := Completed) else orders[i])
  }

  /** Completing touches exactly the matched orders, so both counts equal the number of
      open orders on the table. */
  lemma {:induction false} CompleteOpenChangesMatched(orders: seq<Order>, tableNumber: string)
    ensures Count(orders, (o: Order) => OpenOnTable(o, tableNumber))
            == Count(seq(|orders|, i requires 0 <= i < |orders| => (orders[i], CompleteOpen(orders, tableNumber)[i])),
                     (p: (Order, Order)) => p.0 != p.1)
  {
    if |orders| > 0 {
      var r := CompleteOpen(orders, tableNumber);
      var pairs := seq(|orders|, i requires 0 <= i < |orders| => (orders[i], r[i]));
      var tail := orders[1..];
      CompleteOpenChangesMatched(tail, tableNumber);
      var rt := CompleteOpen(tail, tableNumber);
      var tailPairs := seq(|tail|, i requires 0 <= i < |tail| => (tail[i], rt[i]));
      assert pairs[1..] == tailPairs;
      assert OpenOnTable(orders[0], tableNumber) <==> orders[0] != r[0];
    }
  }

  /** completeOrder. Every open dine-in order on the table becomes completed, an existing
      table is freed, and both counts report how many orders matched. */
  method CompleteOrder(db: Db, tableNumber: Option<string>) returns (resp: Response, matchedCount: nat, modifiedCount: nat)
    requires db.Valid()
    modifies db
    ensures db.Valid()
    ensures !Truthy(tableNumber) ==>
              resp == Response(400, "Table number is required") && db.Snapshot() == old(db.Snapshot())
    ensures Truthy(tableNumber) && Count(old(db.orders), (o: Order) => OpenOnTable(o, tableNumber.value)) == 0 ==>
              resp == Response(404, "No active orders found for table") && db.Snapshot() == old(db.Snapshot())
    ensures Truthy(tableNumber) && Count(old(db.orders), (o: Order) => OpenOnTable(o, tableNumber.value)) > 0 ==>
              && resp == Response(200, "Orders completed successfully")
              && matchedCount == modifiedCount == Count(old(db.orders), (o: Order) => OpenOnTable(o, tableNumber.value))
              && db.orders == CompleteOpen(old(db.orders), tableNumber.value)
              && db.tables == ReleaseByNumber(old(db.tables), tableNumber.value)
              && db.Snapshot() == old(db.Snapshot()).(orders := db.orders, tables := db.tables)
  {
    if !Truthy(tableNumber) {
      return Response(400, "Table number is required"), 0, 0;
    }
    var n := tableNumber.value;
    var matched := Count(db.orders, (o: Order) => OpenOnTable(o, n));
    if matched == 0 {
      return Response(404, "No active orders found for table"), 0, 0;
    }
    db.orders := CompleteOpen(db.orders, n);
    db.tables := ReleaseByNumber(db.tables, n);
    return Response(200, "Orders completed successfully"), matched, matched;
  }

  // ---- editOrder ----

  /** One entry of `updatedItems`; `id` is its `_id`. */
  datatype ItemPatch = ItemPatch(id: Option<Id>, name: Option<string>, quantity: Option<real>,
                                 price: Option<real>)

  /** `order.items.id(_id)`: the first item with that id; an absent id finds nothing. */
  function ItemIndex(items: seq<LineItem>, id: Option<Id>): (r: Option<nat>)
    ensures r.Some? ==> r.value < |items| && id == Some(items[r.value].id)
    ensures r.None? <==> id.None? || forall j :: 0 <= j < |items| ==> items[j].id != id.value
  {
    FindFirst(items, (it: LineItem) => id.Some? && it.id == id.value)
  }

  /** One patch: the name when truthy, quantity and price only when numbers above 0. */
  function ApplyPatch(it: LineItem, p: ItemPatch): LineItem
  {
    it.(name := if Truthy(p.name) then p.name.value else it.name,
        quantity := if p.quantity.Some? && p.quantity.value > 0.0 then p.quantity.value else it.quantity,
        price := if p.price.Some? && p.price.value > 0.0 then p.price.value else it.price)
  }

  datatype PatchOutcome = Patched(items: seq<LineItem>) | MissingItem(id: Option<Id>)

  /** The patch loop: patches apply left to right; the first one whose id is not in the
      order stops it. */
  function PatchAll(items: seq<LineItem>, patches: seq<ItemPatch>): PatchOutcome
    decreases |patches|
  {
    if |patches| == 0 then Patched(items)
    else match ItemIndex(items, patches[0].id)
      case None => MissingItem(patches[0].id)
      case Some(k) => PatchAll(items[k := ApplyPatch(items[k], patches[0])], patches[1..])
  }

  /** Patching keeps the items, their order and ids; a quantity or price changes only to a
      value above 0, and one that met the schema's minimum before may now be below it only
      if the patch set it between 0 and the minimum. */
  lemma {:induction false} PatchAllKeepsItems(items: seq<LineItem>, patches: seq<ItemPatch>)
    requires PatchAll(items, patches).Patched?
    ensures var r := PatchAll(items, patches).items;
            && |r| == |items|
            && (forall i :: 0 <= i < |r| ==> r[i].id == items[i].id)
            && (forall i :: 0 <= i < |r| ==> r[i].quantity == items[i].quantity || r[i].quantity > 0.0)
            && (forall i :: 0 <= i < |r| ==> r[i].price == items[i].price || r[i].price > 0.0)
            && (forall i :: 0 <= i < |r| ==> r[i].specialInstructions == items[i].specialInstructions)
    decreases |patches|
  {
    if |patches| > 0 {
      var k := ItemIndex(items, patches[0].id).value;
      var next := items[k := ApplyPatch(items[k], patches[0])];
      PatchAllKeepsItems(next, patches[1..]);
    }
  }

  /** An absent id makes the loop stop at the first patch that names it. */
  lemma PatchAllReportsMissing(items: seq<LineItem>, p: ItemPatch, rest: seq<ItemPatch>)
    requires ItemIndex(items, p.id).None?
    ensures PatchAll(items, [p] + rest) == MissingItem(p.id)
  {
  }

  /** The handler's loop over `updatedItems`, mutating the loaded items in place. */
  method ApplyPatches(items: seq<LineItem>, patches: seq<ItemPatch>) returns (out: PatchOutcome)
    ensures out == PatchAll(items, patches)
  {
    var cur := items;
    var i := 0;
    while i < |patches|
      invariant 0 <= i <= |patches|
      invariant PatchAll(cur, patches[i..]) == PatchAll(items, patches)
    {
      assert patches[i..][1..] == patches[i + 1..];
      var k := ItemIndex(cur, patches[i].id);
      if k.None? {
        return MissingItem(patches[i].id);
      }
      cur := cur[k.value := ApplyPatch(cur[k.value], patches[i])];
      i := i + 1;
    }
    return Patched(cur);
  }

  function MissingItemMessage(id: Option<Id>): string
  {
    "Item with ID " + (if id.Some? then NatToString(id.value) else "undefined") + " not found in order"
  }

  /** The order after the truthy header fields are copied. */
  function WithHeader(o: Order, customerName: Option<string>, specialInstructions: Option<string>): Order
  {
    o.(customerName := if Truthy(customerName) then customerName.value else o.customerName,
       specialInstructions := if Truthy(specialInstructions) then specialInstructions else o.specialInstructions)
  }

  /** editOrder. Only open orders are edited; an unknown item id answers 404 and nothing is
      saved. When `updatedItems` is an array the subtotal is recomputed as Σ price × quantity
      over all items, discarding any earlier caller-supplied value. */
  method EditOrder(db: Db, orderId: Id, customerName: Option<string>, specialInstructions: Option<string>,
                   updatedItems: Option<seq<ItemPatch>>) returns (resp: Response)
    requires db.Valid()
    modifies db
    ensures db.Valid()
    ensures OrderIndex(old(db.orders), orderId).None? ==>
              resp == Response(404, "Order not found") && db.Snapshot() == old(db.Snapshot())
    ensures OrderIndex(old(db.orders), orderId).Some? ==>
              var k := OrderIndex(old(db.orders), orderId).value;
              var o1 := WithHeader(old(db.orders)[k], customerName, specialInstructions);
              && (!IsActive(old(db.orders)[k].status) ==>
                    resp == Response(400, "Only pending or in-progress orders can be edited")
                    && db.Snapshot() == old(db.Snapshot()))
              && (IsActive(old(db.orders)[k].status) && updatedItems.Some?
                  && PatchAll(o1.items, updatedItems.value).MissingItem? ==>
                    resp == Response(404, MissingItemMessage(PatchAll(o1.items, updatedItems.value).id))
                    && db.Snapshot() == old(db.Snapshot()))
              && (IsActive(old(db.orders)[k].status)
                  && (updatedItems.None? || PatchAll(o1.items, updatedItems.value).Patched?) ==>
                    var o2 := if updatedItems.None? then o1
                              else var r := PatchAll(o1.items, updatedItems.value).items;
                                   o1.(items := r, subtotal := Some(ItemsTotal(r)));
                    && (OrderValid(o2) ==> resp == Response(200, "Order updated successfully")
                                           && db.orders == old(db.orders)[k := o2]
                                           && db.Snapshot() == old(db.Snapshot()).(orders := db.orders))
                    && (!OrderValid(o2) ==> resp == Response(500, "Server Error")
                                            && db.Snapshot() == old(db.Snapshot())))
  {
    var idx := OrderIndex(db.orders, orderId);
    if idx.None? {
      return Response(404, "Order not found");
    }
    var k := idx.value;
    if !IsActive(db.orders[k].status) {
      return Response(400, "Only pending or in-progress orders can be edited");
    }
    var o := WithHeader(db.orders[k], customerName, specialInstructions);
    if updatedItems.Some? {
      var out := ApplyPatches(o.items, updatedItems.value);
      if out.MissingItem? {
        return Response(404, MissingItemMessage(out.id));
      }
      PatchAllKeepsItems(o.items, updatedItems.value);
      o := o.(items := out.items, subtotal := Some(ItemsTotal(out.items)));
    }
    if !OrderValid(o) {
      return Response(500, "Server Error");
    }
    assert OrderIdsBelow(db.orders[k], db.nextId);
    OrdersIdsBelowWrite(db.orders, k, o, db.nextId);
    db.orders := db.orders[k := o];
    return Response(200, "Order updated successfully");
  }

  // ---- sendToKotController ----

  /** sendToKotController. The kitchen flag only goes from false to true, so a second call
      on the same order answers 400; the status is left alone. */
  method SendToKot(db: Db, orderId: Id) returns (resp: Response)
    requires db.Valid()
    modifies db
    ensures db.Valid()
    ensures OrderIndex(old(db.orders), orderId).None? ==>
              resp == Response(404, "Order not found") && db.Snapshot() == old(db.Snapshot())
    ensures OrderIndex(old(db.orders), orderId).Some? ==>
              var k := OrderIndex(old(db.orders), orderId).value;
              && (old(db.orders)[k].sentToKOT ==>
                    resp == Response(400, "Order already sent to KOT") && db.Snapshot() == old(db.Snapshot()))
              && (!old(db.orders)[k].sentToKOT ==>
                    && resp == Response(200, "Order sent to KOT successfully")
                    && db.orders == old(db.orders)[k := old(db.orders)[k].(sentToKOT := true)]
                    && db.Snapshot() == old(db.Snapshot()).(orders := db.orders))
    ensures forall i :: 0 <= i < |db.orders| ==> db.orders[i].status == old(db.orders)[i].status
  {
    var idx := OrderIndex(db.orders, orderId);
    if idx.None? {
      return Response(404, "Order not found");
    }
    var k := idx.value;
    if db.orders[k].sentToKOT {
      return Response(400, "Order already sent to KOT");
    }
    db.orders := db.orders[k := db.orders[k].(sentToKOT := true)];
    return Response(200, "Order sent to KOT successfully");
  }
}
