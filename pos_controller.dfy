/** The point-of-sale handlers: create a bill (and its kitchen order), add cart items
    to a table's open order, move credit to cash or online, and the item sales
    rankings. */
module PosController {
  import opened Common
  import opened OrderModel
  import opened TableModel
  import opened PosModel
  import opened Store
  import opened OrderController
  import opened Sorting

  /** `!cart || cart.length === 0` fails exactly when this does not hold. */
  predicate CartGiven(cart: Option<seq<CartLine>>)
  {
    cart.Some? && |cart.value| > 0
  }

  /** The kitchen order line for a cart entry: its name, price and quantity only. */
  function KitchenItem(c: CartLine): ItemFields
  {
    ItemFields(c.name, c.quantity, c.price, None)
  }

  function KitchenItems(cart: seq<CartLine>): (r: seq<ItemFields>)
    ensures |r| == |cart|
    ensures forall i :: 0 <= i < |cart| ==> r[i] == KitchenItem(cart[i])
  {
    seq(|cart|, i requires 0 <= i < |cart| => KitchenItem(cart[i]))
  }

  // ---- createBill ----

  datatype BillRequest = BillRequest(
    cart: Option<seq<CartLine>>,
    total: Option<real>,
    cash: Option<real>,
    credit: Option<real>,
    online: Option<real>,
    paymentMethod: Option<string>,
    orderType: Option<string>,
    customerName: Option<string>,
    customerNumber: Option<string>,
    tableNumber: Option<string>)

  /** The bill's customer: the name defaults to "Guest" and the contact to "". */
  function BillCustomer(req: BillRequest): (c: CustomerDetails)
    ensures c.name == (if Truthy(req.customerName) then req.customerName.value else "Guest")
    ensures c.contact == (if Truthy(req.customerNumber) then req.customerNumber.value else "")
  {
    CustomerDetails(if Truthy(req.customerName) then req.customerName.value else "Guest",
                    if Truthy(req.customerNumber) then req.customerNumber.value else "")
  }

  /** The POS record createBill stores with id `id`. */
  function RequestBill(id: Id, req: BillRequest): Option<PosBill>
    requires req.cart.Some?
  {
    CreatePosBill(id, req.cart.value, req.total, req.cash, req.credit, req.online, req.paymentMethod,
                  req.orderType, BillCustomer(req))
  }

  /** The kitchen order createBill builds: counter payment, subtotal = the bill total,
      already in progress and sent to the kitchen; dine-in on the table when one is
      given, otherwise a "delivery" to "Takeaway". */
  function KitchenOrderFields(req: BillRequest): OrderFields
    requires req.cart.Some?
  {
    var name := Some(if Truthy(req.customerName) then req.customerName.value else "Guest");
    var items := KitchenItems(req.cart.value);
    if Truthy(req.tableNumber) then
      OrderFields(name, items, Some("dine-in"), req.tableNumber, None, None, None, Some("counter"),
                  req.total, Some("in-progress"), Some(true))
    else
      OrderFields(name, items, Some("delivery"), None,
                  Some(if Truthy(req.customerNumber) then req.customerNumber.value else "0000000000"),
                  Some("Takeaway"), None, Some("counter"), req.total, Some("in-progress"), Some(true))
  }

  /** A stored kitchen order has the shape createBill promises. */
  lemma KitchenOrderShape(id: Id, req: BillRequest, o: Order)
    requires req.cart.Some? && SaveNew(id, KitchenOrderFields(req)) == Some(o)
    ensures o.id == id && o.paymentMethod == Counter && o.status == InProgress && o.sentToKOT
    ensures o.subtotal == req.total && |o.items| == |req.cart.value|
    ensures forall j :: 0 <= j < |o.items| ==> o.items[j].id == id + 1 + j
    ensures o.customerName == (if Truthy(req.customerName) then req.customerName.value else "Guest")
    ensures Truthy(req.tableNumber) ==> o.orderType == DineIn && o.tableNumber == req.tableNumber
    ensures !Truthy(req.tableNumber) ==>
              && o.orderType == Delivery && o.tableNumber.None?
              && o.deliveryAddress == Some("Takeaway")
              && o.phoneNumber == Some(if Truthy(req.customerNumber) then req.customerNumber.value else "0000000000")
  {
    var f := KitchenOrderFields(req);
    assert Construct(id, f) == Some(o);
  }

  /** The ids createBill hands out are fresh: the bill takes the counter, the kitchen order
      the next id and its items the ids after that, none of which a stored bill, order or
      line item uses; all of them lie below the raised counter. */
  lemma KitchenOrderIdsFresh(c: Collections, req: BillRequest)
    requires OrdersIdsBelow(c.orders, c.nextId) && BillsIdsBelow(c.bills, c.nextId) && req.cart.Some?
    ensures forall i :: 0 <= i < |c.bills| ==> c.bills[i].id != c.nextId
    ensures SaveNew(c.nextId + 1, KitchenOrderFields(req)).Some? ==>
              var o := SaveNew(c.nextId + 1, KitchenOrderFields(req)).value;
              && OrderIdUnused(c.orders, o.id) && ItemIdsFresh(c.orders, o.items)
              && OrderIdsBelow(o, c.nextId + 2 + |req.cart.value|)
  {
    var kitchen := SaveNew(c.nextId + 1, KitchenOrderFields(req));
    if kitchen.Some? {
      var o := kitchen.value;
      KitchenOrderShape(c.nextId + 1, req, o);
      NewOrderIds(c.orders, o, c.nextId, c.nextId + 2 + |req.cart.value|);
    }
  }

  /** Storing a valid bill with the old counter as its id, and raising the counter,
      keeps the collections valid. */
  lemma BillStoredValid(c: Collections, bill: PosBill, m: nat)
    requires CollectionsValid(c) && PosBillValid(bill) && c.nextId == bill.id < m
    ensures CollectionsValid(c.(bills := c.bills + [bill], nextId := m))
  {
    ValidRaise(c, m);
    ValidAppendBill(c.(nextId := m), bill);
    assert c.(nextId := m).(bills := c.bills + [bill]) == c.(bills := c.bills + [bill], nextId := m);
  }

  /** Then storing a valid kitchen order whose ids lie below the new counter, and booking
      its table when one is given, keeps them valid too. */
  lemma KitchenStoredValid(c: Collections, bill: PosBill, o: Order, m: nat, tableNumber: Option<string>)
    requires CollectionsValid(c.(bills := c.bills + [bill], nextId := m))
    requires OrderValid(o) && OrderIdsBelow(o, m)
    ensures CollectionsValid(c.(bills := c.bills + [bill], nextId := m, orders := c.orders + [o],
                                tables := if Truthy(tableNumber)
                                          then OccupyByNumber(c.tables, tableNumber.value, true, o.id)
                                          else c.tables))
  {
    var c1 := c.(bills := c.bills + [bill], nextId := m);
    ValidAppendOrder(c1, o);
    var c2 := c1.(orders := c1.orders + [o]);
    if Truthy(tableNumber) {
      ValidOccupy(c2, tableNumber.value, o.id);
    }
  }

  /** `createBill`. An empty cart is refused; a bill that fails its schema is not stored
      and answers 500. Once the bill is stored, the kitchen order is saved after it: if
      that save fails the handler answers 500 but the bill stays. With a table number the
      table is then marked booked on the kitchen order, with no check that it exists or
      is free. */
  method CreateBill(db: Db, req: BillRequest) returns (resp: Response)
    requires db.Valid()
    modifies db
    ensures db.Valid()
    ensures !CartGiven(req.cart) ==>
              resp == Response(400, "Cart items are required") && db.Snapshot() == old(db.Snapshot())
    ensures CartGiven(req.cart) && RequestBill(old(db.nextId), req).None? ==>
              resp == Response(500, "Failed to create bill") && db.Snapshot() == old(db.Snapshot())
    ensures CartGiven(req.cart) && RequestBill(old(db.nextId), req).Some? ==>
              var kitchen := SaveNew(old(db.nextId) + 1, KitchenOrderFields(req));
              && db.bills == old(db.bills) + [RequestBill(old(db.nextId), req).value]
              && db.nextId == old(db.nextId) + 2 + |req.cart.value|
              && (kitchen.None? ==>
                    && resp == Response(500, "Failed to create bill")
                    && db.Snapshot() == old(db.Snapshot()).(bills := db.bills, nextId := db.nextId))
              && (kitchen.Some? ==>
                    && resp == Response(201, "")
                    && db.orders == old(db.orders) + [kitchen.value]
                    && db.tables == (if Truthy(req.tableNumber)
                                     then OccupyByNumber(old(db.tables), req.tableNumber.value, true, kitchen.value.id)
                                     else old(db.tables))
                    && db.Snapshot() == old(db.Snapshot()).(bills := db.bills, orders := db.orders,
                                                            tables := db.tables, nextId := db.nextId))
  {
    if !CartGiven(req.cart) {
      return Response(400, "Cart items are required");
    }
    var bill := RequestBill(db.nextId, req);
    if bill.None? {
      return Response(500, "Failed to create bill");
    }
    var kitchen := SaveNew(db.nextId + 1, KitchenOrderFields(req));
    var bills, nextId := db.bills + [bill.value], db.nextId + 2 + |req.cart.value|;
    BillStoredValid(db.Snapshot(), bill.value, nextId);
    if kitchen.None? {
      ghost var after := db.Snapshot().(bills := bills, nextId := nextId);
      db.bills, db.nextId := bills, nextId;
      assert db.Snapshot() == after;
      return Response(500, "Failed to create bill");
    }
    KitchenOrderIdsFresh(db.Snapshot(), req);
    var tables := if Truthy(req.tableNumber)
                  then OccupyByNumber(db.tables, req.tableNumber.value, true, kitchen.value.id)
                  else db.tables;
    KitchenStoredValid(db.Snapshot(), bill.value, kitchen.value, nextId, req.tableNumber);
    ghost var after := db.Snapshot().(bills := bills, nextId := nextId, orders := db.orders + [kitchen.value],
                                      tables := tables);
    db.bills, db.nextId, db.orders, db.tables := bills, nextId, db.orders + [kitchen.value], tables;
    assert db.Snapshot() == after;
    return Response(201, "");
  }

  // ---- addItemsToOrder ----

  /** addItemsToOrder's guards: a non-empty cart, a booked table with a current order,
      and that order still pending or in progress. */
  function AddItemsGuard(tables: seq<Table>, orders: seq<Order>, tableNumber: string,
                         cart: Option<seq<CartLine>>): (r: Option<Response>)
    ensures !CartGiven(cart) ==> r == Some(Response(400, "Cart items are required"))
    ensures CartGiven(cart) && (TableByNumber(tables, tableNumber).None?
                                || !tables[TableByNumber(tables, tableNumber).value].isBooked
                                || tables[TableByNumber(tables, tableNumber).value].currentOrderId.None?) ==>
              r == Some(Response(400, "No active order found for this table"))
    ensures r.None? <==>
              && CartGiven(cart)
              && TableByNumber(tables, tableNumber).Some?
              && var t := tables[TableByNumber(tables, tableNumber).value];
              && t.isBooked && t.currentOrderId.Some?
              && OrderIndex(orders, t.currentOrderId.value).Some?
              && IsActive(orders[OrderIndex(orders, t.currentOrderId.value).value].status)
    ensures r.Some? ==> r.value.status == 400
  {
    if !CartGiven(cart) then Some(Response(400, "Cart items are required"))
    else match TableByNumber(tables, tableNumber)
      case None => Some(Response(400, "No active order found for this table"))
      case Some(k) =>
        var t := tables[k];
        if !t.isBooked || t.currentOrderId.None? then Some(Response(400, "No active order found for this table"))
        else match OrderIndex(orders, t.currentOrderId.value)
          case None => Some(Response(400, "Cannot add items to this order"))
          case Some(j) =>
            if !IsActive(orders[j].status) then Some(Response(400, "Cannot add items to this order")) else None
  }

  /** The open order the guard found. */
  function OpenOrderIndex(tables: seq<Table>, orders: seq<Order>, tableNumber: string,
                          cart: Option<seq<CartLine>>): (j: nat)
    requires AddItemsGuard(tables, orders, tableNumber, cart).None?
    ensures j < |orders| && IsActive(orders[j].status)
  {
    OrderIndex(orders, tables[TableByNumber(tables, tableNumber).value].currentOrderId.value).value
  }

  /** The order after the cart is appended: new line items with fresh ids and the
      subtotal raised by the cart's Σ price × quantity; `None` when a cart line misses a
      field. */
  function WithCart(o: Order, firstId: Id, cart: seq<CartLine>): Option<Order>
    requires o.subtotal.Some?
  {
    match CastItems(KitchenItems(cart), firstId)
    case None => None
    case Some(added) => Some(WithAddedItems(o, added, Sum(KitchenItems(cart), FieldsLineTotal)))
  }

  /** Appending a cart keeps an order's subtotal equal to Σ price × quantity when it was
      before, and keeps its earlier items in front. */
  lemma WithCartKeepsTotal(o: Order, firstId: Id, cart: seq<CartLine>)
    requires o.subtotal.Some? && o.subtotal.value == ItemsTotal(o.items)
    requires WithCart(o, firstId, cart).Some?
    ensures var o2 := WithCart(o, firstId, cart).value;
            o2.subtotal == Some(ItemsTotal(o2.items)) && o2.items[..|o.items|] == o.items
            && |o2.items| == |o.items| + |cart|
  {
    AddedItemsKeepTotal(o, KitchenItems(cart), firstId);
  }

  /** pos `addItemsToOrder`: a draft that misses a field or fails the schema answers 500
      and nothing changes. */
  method AddItemsToOrder(db: Db, tableNumber: string, cart: Option<seq<CartLine>>) returns (resp: Response)
    requires db.Valid()
    modifies db
    ensures db.Valid()
    ensures AddItemsGuard(old(db.tables), old(db.orders), tableNumber, cart).Some? ==>
              resp == AddItemsGuard(old(db.tables), old(db.orders), tableNumber, cart).value
              && db.Snapshot() == old(db.Snapshot())
    ensures AddItemsGuard(old(db.tables), old(db.orders), tableNumber, cart).None? ==>
              var j := OpenOrderIndex(old(db.tables), old(db.orders), tableNumber, cart);
              var o2 := WithCart(old(db.orders)[j], old(db.nextId), cart.value);
              && (o2.Some? && OrderValid(o2.value) ==>
                    && resp == Response(200, "Items added to existing order")
                    && db.orders == old(db.orders)[j := o2.value]
                    && db.nextId == old(db.nextId) + |cart.value|
                    && ItemIdsFresh(old(db.orders), CastItems(KitchenItems(cart.value), old(db.nextId)).value)
                    && db.Snapshot() == old(db.Snapshot()).(orders := db.orders, nextId := db.nextId))
              && (!(o2.Some? && OrderValid(o2.value)) ==>
                    resp == Response(500, "Failed to add items") && db.Snapshot() == old(db.Snapshot()))
  {
    var g := AddItemsGuard(db.tables, db.orders, tableNumber, cart);
    if g.Some? {
      return g.value;
    }
    var j := OpenOrderIndex(db.tables, db.orders, tableNumber, cart);
    var o2 := WithCart(db.orders[j], db.nextId, cart.value);
    if o2.None? || !OrderValid(o2.value) {
      return Response(500, "Failed to add items");
    }
    var added := CastItems(KitchenItems(cart.value), db.nextId).value;
    AddedItemIds(db.orders, j, o2.value, added, db.nextId, db.nextId + |cart.value|);
    ghost var after := db.Snapshot().(orders := db.orders[j := o2.value], nextId := db.nextId + |cart.value|);
    db.orders, db.nextId := db.orders[j := o2.value], db.nextId + |cart.value|;
    assert db.Snapshot() == after;
    return Response(200, "Items added to existing order");
  }

  // ---- transferCreditTo ----

  datatype TransferTarget = ToCash | ToOnline

  /** The target defaults to cash; only "cash" and "online" are accepted. */
  function ParseTransferTarget(transferTo: Option<string>): (r: Option<TransferTarget>)
    ensures r.Some? <==> transferTo.None? || transferTo.value == "cash" || transferTo.value == "online"
    ensures r == Some(ToOnline) <==> transferTo == Some("online")
  {
    if transferTo.None? || transferTo.value == "cash" then Some(ToCash)
    else if transferTo.value == "online" then Some(ToOnline)
    else None
  }

  /** The bill after `credit -= amount; bill[target] += amount`: the amount moves from
      credit to the target, so the three parts keep their sum and the total and the other
      part are untouched; credit stays non-negative for an amount between 0 and the
      credit. */
  function Transferred(b: PosBill, target: TransferTarget, amount: real): (r: PosBill)
    ensures r.cash + r.credit + r.online == b.cash + b.credit + b.online
    ensures r.credit == b.credit - amount
    ensures target == ToCash ==> r.cash == b.cash + amount && r.online == b.online
    ensures target == ToOnline ==> r.online == b.online + amount && r.cash == b.cash
    ensures r.(cash := b.cash, credit := b.credit, online := b.online) == b
    ensures 0.0 <= amount <= b.credit ==> 0.0 <= r.credit <= b.credit
  {
    match target
    case ToCash => b.(credit := b.credit - amount, cash := b.cash + amount)
    case ToOnline => b.(credit := b.credit - amount, online := b.online + amount)
  }

  /** `transferCreditTo`. A negative amount is not refused. A missing amount passes the
      credit check (comparing `undefined` is false) but makes the parts NaN, which the
      save rejects with 500. */
  method TransferCreditTo(db: Db, billId: Id, transferTo: Option<string>, amount: Option<real>)
    returns (resp: Response)
    requires db.Valid()
    modifies db
    ensures db.Valid()
    ensures ParseTransferTarget(transferTo).None? ==>
              resp == Response(400, "Invalid transfer target") && db.Snapshot() == old(db.Snapshot())
    ensures ParseTransferTarget(transferTo).Some? && BillById(old(db.bills), billId).None? ==>
              resp == Response(404, "Bill not found") && db.Snapshot() == old(db.Snapshot())
    ensures ParseTransferTarget(transferTo).Some? && BillById(old(db.bills), billId).Some? ==>
              var k := BillById(old(db.bills), billId).value;
              && (amount.Some? && amount.value > old(db.bills)[k].credit ==>
                    resp == Response(400, "Insufficient credit to transfer") && db.Snapshot() == old(db.Snapshot()))
              && (amount.None? ==>
                    resp == Response(500, "Failed to transfer credit") && db.Snapshot() == old(db.Snapshot()))
              && (amount.Some? && amount.value <= old(db.bills)[k].credit ==>
                    && resp == Response(200, "")
                    && db.bills == old(db.bills)[k := Transferred(old(db.bills)[k],
                                                                 ParseTransferTarget(transferTo).value, amount.value)]
                    && db.Snapshot() == old(db.Snapshot()).(bills := db.bills))
  {
    var target := ParseTransferTarget(transferTo);
    if target.None? {
      return Response(400, "Invalid transfer target");
    }
    var found := BillById(db.bills, billId);
    if found.None? {
      return Response(404, "Bill not found");
    }
    var k := found.value;
    if amount.Some? && amount.value > db.bills[k].credit {
      return Response(400, "Insufficient credit to transfer");
    }
    if amount.None? {
      return Response(500, "Failed to transfer credit");
    }
    db.bills := db.bills[k := Transferred(db.bills[k], target.value, amount.value)];
    return Response(200, "");
  }

  // ---- item sales: getAllItemsSold and getTopItems ----

  /** One `$group` result: an item name with its summed quantity and sales. */
  datatype ItemSales = ItemSales(name: string, totalQuantity: real, totalSales: real)

  /** `$unwind: "$items"`: every bill line, bill by bill. */
  function Unwind(bills: seq<PosBill>): seq<PosItem>
  {
    if |bills| == 0 then [] else bills[0].items + Unwind(bills[1..])
  }

  /** What one line adds to its item's sales. */
  function LineSales(l: PosItem): real
  {
    l.price * l.quantity
  }

  /** Σ quantity over the lines named `n`. */
  function QuantityOf(lines: seq<PosItem>, n: string): real
  {
    if |lines| == 0 then 0.0
    else QuantityOf(lines[..|lines| - 1], n) + (if lines[|lines| - 1].name == n then lines[|lines| - 1].quantity else 0.0)
  }

  /** Σ price × quantity over the lines named `n`. */
  function SalesOf(lines: seq<PosItem>, n: string): real
  {
    if |lines| == 0 then 0.0
    else
      var l := lines[|lines| - 1];
      SalesOf(lines[..|lines| - 1], n) + (if l.name == n then LineSales(l) else 0.0)
  }

  lemma {:induction false} AbsentNameSumsToZero(lines: seq<PosItem>, n: string)
    requires forall i :: 0 <= i < |lines| ==> lines[i].name != n
    ensures QuantityOf(lines, n) == 0.0 && SalesOf(lines, n) == 0.0
  {
    if |lines| > 0 {
      AbsentNameSumsToZero(lines[..|lines| - 1], n);
    }
  }

  /** Some line is named `n`. */
  predicate Sold(lines: seq<PosItem>, n: string)
  {
    exists i :: 0 <= i < |lines| && lines[i].name == n
  }

  /** Some entry is named `n`. */
  predicate HasGroup(gs: seq<ItemSales>, n: string)
  {
    exists j :: 0 <= j < |gs| && gs[j].name == n
  }

  predicate DistinctNames(gs: seq<ItemSales>)
  {
    forall i, j :: 0 <= i < j < |gs| ==> gs[i].name != gs[j].name
  }

  predicate HoldsSums(gs: seq<ItemSales>, lines: seq<PosItem>)
  {
    forall i :: 0 <= i < |gs| ==>
      gs[i].totalQuantity == QuantityOf(lines, gs[i].name) && gs[i].totalSales == SalesOf(lines, gs[i].name)
  }

  /** What `$group` by name produces: one entry per distinct line name, none without a
      line, each holding that name's sums. */
  predicate GroupsOf(gs: seq<ItemSales>, lines: seq<PosItem>)
  {
    && DistinctNames(gs)
    && HoldsSums(gs, lines)
    && (forall i :: 0 <= i < |lines| ==> HasGroup(gs, lines[i].name))
    && (forall j :: 0 <= j < |gs| ==> Sold(lines, gs[j].name))
  }

  function GroupIndex(gs: seq<ItemSales>, n: string): (r: Option<nat>)
    ensures r.Some? ==> r.value < |gs| && gs[r.value].name == n
    ensures r.None? <==> !HasGroup(gs, n)
  {
    FindFirst(gs, (g: ItemSales) => g.name == n)
  }

  /** Folds one line into the groups: its name's entry grows, or a new entry is added. */
  function AddLine(gs: seq<ItemSales>, l: PosItem): seq<ItemSales>
  {
    match GroupIndex(gs, l.name)
    case None => gs + [ItemSales(l.name, l.quantity, LineSales(l))]
    case Some(k) =>
      gs[k := gs[k].(totalQuantity := gs[k].totalQuantity + l.quantity,
                     totalSales := gs[k].totalSales + LineSales(l))]
  }

  /** The grouping, accumulated line by line in order. */
  function Group(lines: seq<PosItem>): seq<ItemSales>
  {
    if |lines| == 0 then [] else AddLine(Group(lines[..|lines| - 1]), lines[|lines| - 1])
  }

  lemma SnocSums(init: seq<PosItem>, l: PosItem, n: string)
    ensures QuantityOf(init + [l], n) == QuantityOf(init, n) + (if l.name == n then l.quantity else 0.0)
    ensures SalesOf(init + [l], n) == SalesOf(init, n) + (if l.name == n then LineSales(l) else 0.0)
  {
    var lines := init + [l];
    assert lines[..|lines| - 1] == init;
  }

  lemma AddLineAppends(gs: seq<ItemSales>, l: PosItem)
    requires GroupIndex(gs, l.name).None?
    ensures AddLine(gs, l) == gs + [ItemSales(l.name, l.quantity, LineSales(l))]
  {
  }

  lemma AddLineNew(gs: seq<ItemSales>, init: seq<PosItem>, l: PosItem)
    requires GroupsOf(gs, init) && GroupIndex(gs, l.name).None?
    ensures GroupsOf(AddLine(gs, l), init + [l])
  {
    var lines := init + [l];
    var r := AddLine(gs, l);
    AddLineAppends(gs, l);
    assert !Sold(init, l.name);
    AbsentNameSumsToZero(init, l.name);
    forall i | 0 <= i < |r|
      ensures r[i].totalQuantity == QuantityOf(lines, r[i].name) && r[i].totalSales == SalesOf(lines, r[i].name)
    {
      SnocSums(init, l, r[i].name);
    }
    forall i | 0 <= i < |lines|
      ensures HasGroup(r, lines[i].name)
    {
      if i < |init| {
        var j :| 0 <= j < |gs| && gs[j].name == init[i].name;
        assert r[j].name == lines[i].name;
      } else {
        assert r[|gs|].name == lines[i].name;
      }
    }
    forall j | 0 <= j < |r|
      ensures Sold(lines, r[j].name)
    {
      if j < |gs| {
        var i :| 0 <= i < |init| && init[i].name == gs[j].name;
        assert lines[i].name == r[j].name;
      } else {
        assert lines[|init|].name == r[j].name;
      }
    }
  }

  lemma AddLineExisting(gs: seq<ItemSales>, init: seq<PosItem>, l: PosItem, k: nat)
    requires GroupsOf(gs, init) && GroupIndex(gs, l.name) == Some(k)
    ensures GroupsOf(AddLine(gs, l), init + [l])
  {
    var lines := init + [l];
    var r := AddLine(gs, l);
    assert |r| == |gs| && forall j :: 0 <= j < |r| ==> r[j].name == gs[j].name;
    forall i | 0 <= i < |r|
      ensures r[i].totalQuantity == QuantityOf(lines, r[i].name) && r[i].totalSales == SalesOf(lines, r[i].name)
    {
      SnocSums(init, l, r[i].name);
    }
    forall i | 0 <= i < |lines|
      ensures HasGroup(r, lines[i].name)
    {
      if i < |init| {
        var j :| 0 <= j < |gs| && gs[j].name == init[i].name;
        assert r[j].name == lines[i].name;
      } else {
        assert r[k].name == lines[i].name;
      }
    }
    forall j | 0 <= j < |r|
      ensures Sold(lines, r[j].name)
    {
      var i :| 0 <= i < |init| && init[i].name == gs[j].name;
      assert lines[i].name == r[j].name;
    }
  }

  /** The line-by-line fold computes exactly the `$group` stage. */
  lemma {:induction false} GroupCorrect(lines: seq<PosItem>)
    ensures GroupsOf(Group(lines), lines)
  {
    if |lines| > 0 {
      var init := lines[..|lines| - 1];
      var l := lines[|lines| - 1];
      GroupCorrect(init);
      assert init + [l] == lines;
      match GroupIndex(Group(init), l.name)
      case None => AddLineNew(Group(init), init, l);
      case Some(k) => AddLineExisting(Group(init), init, l, k);
    }
  }

  predicate SortedByQuantity(s: seq<ItemSales>)
  {
    forall i, j :: 0 <= i < j < |s| ==> s[i].totalQuantity >= s[j].totalQuantity
  }

  /** `$sort: { totalQuantity: -1 }`'s key: the quantity sold, highest first. */
  function QuantityKey(): ItemSales -> SortKey
  {
    (g: ItemSales) => Num(g.totalQuantity)
  }

  /** Sorted descending by the quantity key is ranked by quantity sold. */
  lemma RankedByQuantity(s: seq<ItemSales>)
    requires SortedBy(s, QuantityKey(), true)
    ensures SortedByQuantity(s)
  {
    forall i, j | 0 <= i < j < |s|
      ensures s[i].totalQuantity >= s[j].totalQuantity
    {
      assert !Before(QuantityKey(), true, s[j], s[i]);
    }
  }

  /** `$sort: { totalQuantity: -1 }`, as the stable comparator sort, which keeps equal
      entries in their grouping order. */
  function SortByQuantity(s: seq<ItemSales>): seq<ItemSales>
  {
    Sort(s, QuantityKey(), true)
  }

  /** Reordering entries with distinct names keeps the names distinct. */
  lemma {:induction false} SortKeepsNamesDistinct(s: seq<ItemSales>)
    requires DistinctNames(s)
    ensures DistinctNames(SortByQuantity(s))
  {
    if |s| > 0 {
      var rest := SortByQuantity(s[1..]);
      SortKeepsNamesDistinct(s[1..]);
      SortCorrect(s[1..], QuantityKey(), true);
      InsertNamesDistinct(s[0], rest, s[1..]);
    }
  }

  /** Inserting an entry whose name is new into entries with distinct names. */
  lemma {:induction false} InsertNamesDistinct(g: ItemSales, s: seq<ItemSales>, origin: seq<ItemSales>)
    requires DistinctNames(s) && multiset(s) == multiset(origin)
    requires forall i :: 0 <= i < |origin| ==> origin[i].name != g.name
    ensures DistinctNames(Insert(g, s, QuantityKey(), true))
  {
    assert forall x :: x in s ==> x in origin by {
      forall x | x in s ensures x in origin {
        assert x in multiset(s);
      }
    }
    forall i | 0 <= i < |s| ensures s[i].name != g.name {
      assert s[i] in origin;
      var k :| 0 <= k < |origin| && origin[k] == s[i];
    }
    InsertNamesDistinctAux(g, s);
  }

  lemma {:induction false} InsertNamesDistinctAux(g: ItemSales, s: seq<ItemSales>)
    requires DistinctNames(s)
    requires forall i :: 0 <= i < |s| ==> s[i].name != g.name
    ensures DistinctNames(Insert(g, s, QuantityKey(), true))
    ensures forall x :: x in Insert(g, s, QuantityKey(), true) ==> x in s || x == g
  {
    if |s| > 0 && Before(QuantityKey(), true, s[0], g) {
      var rest := Insert(g, s[1..], QuantityKey(), true);
      InsertNamesDistinctAux(g, s[1..]);
      var r := [s[0]] + rest;
      assert forall j :: 0 < j < |r| ==> r[j] == rest[j - 1];
      forall j | 0 < j < |r| ensures r[0].name != r[j].name {
        assert rest[j - 1] in s[1..] || rest[j - 1] == g;
      }
    }
  }

  /** `getAllItemsSold`: every item name sold, with its quantity and sales sums, ranked by
      quantity sold. */
  function ItemsSold(bills: seq<PosBill>): (r: seq<ItemSales>)
    ensures SortedByQuantity(r)
    ensures multiset(r) == multiset(Group(Unwind(bills)))
    ensures DistinctNames(r)
    ensures HoldsSums(r, Unwind(bills))
    ensures forall i :: 0 <= i < |Unwind(bills)| ==> HasGroup(r, Unwind(bills)[i].name)
  {
    var lines := Unwind(bills);
    var gs := Group(lines);
    GroupCorrect(lines);
    SortCorrect(gs, QuantityKey(), true);
    SortKeepsNamesDistinct(gs);
    var r := SortByQuantity(gs);
    RankedByQuantity(r);
    SortedEntriesHoldSums(gs, r, lines);
    r
  }

  /** A permutation of group entries keeps every entry's sums and every name. */
  lemma SortedEntriesHoldSums(gs: seq<ItemSales>, r: seq<ItemSales>, lines: seq<PosItem>)
    requires GroupsOf(gs, lines) && multiset(r) == multiset(gs)
    ensures HoldsSums(r, lines)
    ensures forall i :: 0 <= i < |lines| ==> HasGroup(r, lines[i].name)
  {
    forall i | 0 <= i < |r|
      ensures r[i].totalQuantity == QuantityOf(lines, r[i].name) && r[i].totalSales == SalesOf(lines, r[i].name)
    {
      assert r[i] in multiset(gs);
      var j :| 0 <= j < |gs| && gs[j] == r[i];
    }
    forall i | 0 <= i < |lines|
      ensures HasGroup(r, lines[i].name)
    {
      var j :| 0 <= j < |gs| && gs[j].name == lines[i].name;
      assert gs[j] in multiset(r);
      var j' :| 0 <= j' < |r| && r[j'] == gs[j];
    }
  }

  const TopLimit: nat := 5

  /** `getTopItems`: the first five entries of the ranking (fewer when fewer items were
      sold). */
  function TopItems(bills: seq<PosBill>): (r: seq<ItemSales>)
    ensures |r| == if |ItemsSold(bills)| < TopLimit then |ItemsSold(bills)| else TopLimit
    ensures r == ItemsSold(bills)[..|r|]
    ensures SortedByQuantity(r)
    ensures forall i, x :: 0 <= i < |r| && x in ItemsSold(bills)[|r|..] ==> r[i].totalQuantity >= x.totalQuantity
  {
    var all := ItemsSold(bills);
    var n := if |all| < TopLimit then |all| else TopLimit;
    all[..n]
  }
}
