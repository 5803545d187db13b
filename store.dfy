/** The MongoDB collections as one in-memory store. Each collection is a sequence in
    natural (insertion) order, so `findOne`/`findById` is the first match; ids come from
    one counter. */
module Store {
  import opened Common
  import opened OrderModel
  import opened TableModel
  import opened RoomModel
  import opened RoomBookModel
  import opened PosModel
  import opened MenuItemModel
  import opened UserModel

  // ---- lookups (findById / findOne) ----

  function OrderIndex(orders: seq<Order>, id: Id): (r: Option<nat>)
    ensures r.Some? ==> r.value < |orders| && orders[r.value].id == id
    ensures r.Some? ==> forall j :: 0 <= j < r.value ==> orders[j].id != id
    ensures r.None? <==> forall j :: 0 <= j < |orders| ==> orders[j].id != id
  {
    FindFirst(orders, (o: Order) => o.id == id)
  }

  function TableByNumber(tables: seq<Table>, tableNumber: string): (r: Option<nat>)
    ensures r.Some? ==> r.value < |tables| && tables[r.value].tableNumber == tableNumber
    ensures r.None? <==> forall j :: 0 <= j < |tables| ==> tables[j].tableNumber != tableNumber
  {
    FindFirst(tables, (t: Table) => t.tableNumber == tableNumber)
  }

  function TableById(tables: seq<Table>, id: Id): (r: Option<nat>)
    ensures r.Some? ==> r.value < |tables| && tables[r.value].id == id
    ensures r.None? <==> forall j :: 0 <= j < |tables| ==> tables[j].id != id
  {
    FindFirst(tables, (t: Table) => t.id == id)
  }

  function RoomById(rooms: seq<Room>, id: Id): (r: Option<nat>)
    ensures r.Some? ==> r.value < |rooms| && rooms[r.value].id == id
    ensures r.None? <==> forall j :: 0 <= j < |rooms| ==> rooms[j].id != id
  {
    FindFirst(rooms, (rm: Room) => rm.id == id)
  }

  function RoomByNumber(rooms: seq<Room>, roomNumber: string): (r: Option<nat>)
    ensures r.Some? ==> r.value < |rooms| && rooms[r.value].roomNumber == roomNumber
    ensures r.None? <==> forall j :: 0 <= j < |rooms| ==> rooms[j].roomNumber != roomNumber
  {
    FindFirst(rooms, (rm: Room) => rm.roomNumber == roomNumber)
  }

  function BookingById(bookings: seq<RoomBooking>, id: Id): (r: Option<nat>)
    ensures r.Some? ==> r.value < |bookings| && bookings[r.value].id == id
    ensures r.None? <==> forall j :: 0 <= j < |bookings| ==> bookings[j].id != id
  {
    FindFirst(bookings, (b: RoomBooking) => b.id == id)
  }

  /** `RoomBooking.findOne({ room, status: { $in: ["booked", "checked-in"] } })`. */
  function ActiveBookingFor(bookings: seq<RoomBooking>, room: Id): (r: Option<nat>)
    ensures r.Some? ==> r.value < |bookings| && bookings[r.value].room == room
                        && HoldsRoom(bookings[r.value])
    ensures r.None? <==> forall j :: 0 <= j < |bookings| ==>
                           !(bookings[j].room == room && HoldsRoom(bookings[j]))
  {
    FindFirst(bookings, (b: RoomBooking) => b.room == room && HoldsRoom(b))
  }

  function BillById(bills: seq<PosBill>, id: Id): (r: Option<nat>)
    ensures r.Some? ==> r.value < |bills| && bills[r.value].id == id
    ensures r.None? <==> forall j :: 0 <= j < |bills| ==> bills[j].id != id
  {
    FindFirst(bills, (b: PosBill) => b.id == id)
  }

  function MenuItemById(items: seq<MenuItem>, id: Id): (r: Option<nat>)
    ensures r.Some? ==> r.value < |items| && items[r.value].id == id
    ensures r.None? <==> forall j :: 0 <= j < |items| ==> items[j].id != id
  {
    FindFirst(items, (m: MenuItem) => m.id == id)
  }

  function UserById(users: seq<User>, id: Id): (r: Option<nat>)
    ensures r.Some? ==> r.value < |users| && users[r.value].id == id
    ensures r.None? <==> forall j :: 0 <= j < |users| ==> users[j].id != id
  {
    FindFirst(users, (u: User) => u.id == id)
  }

  /** `User.findOne({ email })`. An absent email drops out of the filter, which then
      matches the first user of all. */
  function UserByEmail(users: seq<User>, email: Option<string>): (r: Option<nat>)
    ensures r.Some? ==> r.value < |users| && (email.Some? ==> users[r.value].email == email.value)
    ensures email.None? ==> (r.Some? <==> |users| > 0)
    ensures email.Some? ==> (r.None? <==> forall j :: 0 <= j < |users| ==> users[j].email != email.value)
  {
    FindFirst(users, (u: User) => email.None? || u.email == email.value)
  }

  // ---- whole-collection invariants ----

  predicate OrdersValid(orders: seq<Order>)
  {
    forall i :: 0 <= i < |orders| ==> OrderValid(orders[i])
  }

  /** Stored documents passed their schema's validators, so re-saving one whose
      validated fields are untouched cannot fail. */
  predicate TablesValid(tables: seq<Table>)
  {
    forall i :: 0 <= i < |tables| ==> TableValid(tables[i])
  }

  predicate RoomsValid(rooms: seq<Room>)
  {
    forall i :: 0 <= i < |rooms| ==> RoomValid(rooms[i])
  }

  predicate BookingsValid(bookings: seq<RoomBooking>)
  {
    forall i :: 0 <= i < |bookings| ==> bookings[i].customerName != "" && bookings[i].contactNumber != ""
  }

  predicate BillsValid(bills: seq<PosBill>)
  {
    forall i :: 0 <= i < |bills| ==> PosBillValid(bills[i])
  }

  predicate UsersValid(users: seq<User>)
  {
    forall i :: 0 <= i < |users| ==> UserValid(users[i])
  }

  /** Every table that points at an order is booked. */
  predicate TablesLinked(tables: seq<Table>)
  {
    forall i :: 0 <= i < |tables| ==> Linked(tables[i])
  }

  /** Every room that points at an order is booked. */
  predicate RoomsLinked(rooms: seq<Room>)
  {
    forall i :: 0 <= i < |rooms| ==> RoomLinked(rooms[i])
  }

  /** The `unique` index on `tableNumber`. */
  predicate TableNumbersUnique(tables: seq<Table>)
  {
    forall i, j :: 0 <= i < j < |tables| ==> tables[i].tableNumber != tables[j].tableNumber
  }

  /** The `unique` index on `roomNumber`. */
  predicate RoomNumbersUnique(rooms: seq<Room>)
  {
    forall i, j :: 0 <= i < j < |rooms| ==> rooms[i].roomNumber != rooms[j].roomNumber
  }

  /** The `unique` index on `email`. */
  predicate EmailsUnique(users: seq<User>)
  {
    forall i, j :: 0 <= i < j < |users| ==> users[i].email != users[j].email
  }

  // ---- ids drawn from the counter ----

  /** The order and each of its line items took an id below `n`. */
  predicate OrderIdsBelow(o: Order, n: nat)
  {
    o.id < n && forall j :: 0 <= j < |o.items| ==> o.items[j].id < n
  }

  predicate OrdersIdsBelow(orders: seq<Order>, n: nat)
  {
    forall i :: 0 <= i < |orders| ==> OrderIdsBelow(orders[i], n)
  }

  predicate TablesIdsBelow(tables: seq<Table>, n: nat)
  {
    forall i :: 0 <= i < |tables| ==> tables[i].id < n
  }

  predicate RoomsIdsBelow(rooms: seq<Room>, n: nat)
  {
    forall i :: 0 <= i < |rooms| ==> rooms[i].id < n
  }

  predicate BookingsIdsBelow(bookings: seq<RoomBooking>, n: nat)
  {
    forall i :: 0 <= i < |bookings| ==> bookings[i].id < n
  }

  predicate BillsIdsBelow(bills: seq<PosBill>, n: nat)
  {
    forall i :: 0 <= i < |bills| ==> bills[i].id < n
  }

  predicate MenuItemsIdsBelow(items: seq<MenuItem>, n: nat)
  {
    forall i :: 0 <= i < |items| ==> items[i].id < n
  }

  predicate UsersIdsBelow(users: seq<User>, n: nat)
  {
    forall i :: 0 <= i < |users| ==> users[i].id < n
  }

  /** Overwriting one order with one whose ids are below the counter keeps the bound. */
  lemma OrdersIdsBelowWrite(orders: seq<Order>, k: nat, o: Order, n: nat)
    requires OrdersIdsBelow(orders, n) && k < |orders| && OrderIdsBelow(o, n)
    ensures OrdersIdsBelow(orders[k := o], n)
  {
  }

  /** Appending an order whose ids are below the counter keeps the bound. */
  lemma OrdersIdsBelowAppend(orders: seq<Order>, o: Order, n: nat)
    requires OrdersIdsBelow(orders, n) && OrderIdsBelow(o, n)
    ensures OrdersIdsBelow(orders + [o], n)
  {
    var r := orders + [o];
    forall i | 0 <= i < |r|
      ensures OrderIdsBelow(r[i], n)
    {
      if i < |orders| {
        assert r[i] == orders[i];
      }
    }
  }

  /** Raising the counter keeps every stored id below it. */
  lemma OrdersIdsBelowRaise(orders: seq<Order>, n: nat, m: nat)
    requires OrdersIdsBelow(orders, n) && n <= m
    ensures OrdersIdsBelow(orders, m)
  {
    forall i | 0 <= i < |orders|
      ensures OrderIdsBelow(orders[i], m)
    {
      assert OrderIdsBelow(orders[i], n);
    }
  }

  /** No stored order and no stored line item carries `id`. */
  predicate OrderIdUnused(orders: seq<Order>, id: Id)
  {
    forall i :: 0 <= i < |orders| ==>
      orders[i].id != id && forall j :: 0 <= j < |orders[i].items| ==> orders[i].items[j].id != id
  }

  /** Every id in `items` is unused by the stored orders and their line items. */
  predicate ItemIdsFresh(orders: seq<Order>, items: seq<LineItem>)
  {
    forall m :: 0 <= m < |items| ==> OrderIdUnused(orders, items[m].id)
  }

  /** An id at or above the counter is used by no stored order or line item. */
  lemma IdAtCounterUnused(orders: seq<Order>, n: nat, id: Id)
    requires OrdersIdsBelow(orders, n) && n <= id
    ensures OrderIdUnused(orders, id)
  {
    forall i | 0 <= i < |orders|
      ensures orders[i].id != id && forall j :: 0 <= j < |orders[i].items| ==> orders[i].items[j].id != id
    {
      assert OrderIdsBelow(orders[i], n);
    }
  }

  /** A new order whose ids all lie between the old counter `n` and the new one `m`
      reuses no stored id, and appending it keeps every id below the new counter. */
  lemma NewOrderIds(orders: seq<Order>, o: Order, n: nat, m: nat)
    requires OrdersIdsBelow(orders, n) && n <= o.id < m
    requires forall j :: 0 <= j < |o.items| ==> n <= o.items[j].id < m
    ensures OrderIdUnused(orders, o.id) && ItemIdsFresh(orders, o.items)
    ensures OrdersIdsBelow(orders + [o], m)
  {
    IdAtCounterUnused(orders, n, o.id);
    ItemsFromCounterFresh(orders, n, o.items);
    OrdersIdsBelowRaise(orders, n, m);
    OrdersIdsBelowAppend(orders, o, m);
  }

  /** Items appended to a stored order with ids between the old counter `n` and the new
      one `m` reuse no stored id, and the bound holds for the new counter. */
  lemma AddedItemIds(orders: seq<Order>, k: nat, o: Order, added: seq<LineItem>, n: nat, m: nat)
    requires OrdersIdsBelow(orders, n) && k < |orders| && n <= m
    requires o.id == orders[k].id && o.items == orders[k].items + added
    requires forall j :: 0 <= j < |added| ==> n <= added[j].id < m
    ensures ItemIdsFresh(orders, added)
    ensures OrdersIdsBelow(orders[k := o], m)
  {
    ItemsFromCounterFresh(orders, n, added);
    OrdersIdsBelowRaise(orders, n, m);
    assert OrderIdsBelow(orders[k], m);
    assert OrderIdsBelow(o, m) by {
      forall j | 0 <= j < |o.items|
        ensures o.items[j].id < m
      {
        if j >= |orders[k].items| {
          assert o.items[j] == added[j - |orders[k].items|];
        }
      }
    }
    OrdersIdsBelowWrite(orders, k, o, m);
  }

  /** Line items numbered from the counter on reuse no stored id. */
  lemma ItemsFromCounterFresh(orders: seq<Order>, n: nat, items: seq<LineItem>)
    requires OrdersIdsBelow(orders, n)
    requires forall m :: 0 <= m < |items| ==> n <= items[m].id
    ensures ItemIdsFresh(orders, items)
  {
    forall m | 0 <= m < |items|
      ensures OrderIdUnused(orders, items[m].id)
    {
      IdAtCounterUnused(orders, n, items[m].id);
    }
  }

  /** Writing a linked table over one entry keeps the whole collection linked. */
  lemma TablesLinkedAfterWrite(tables: seq<Table>, k: nat, t: Table)
    requires TablesLinked(tables) && k < |tables| && Linked(t)
    ensures TablesLinked(tables[k := t])
  {
  }

  /** Appending a document that passed its schema keeps the collection valid. */
  lemma OrdersValidAppend(orders: seq<Order>, o: Order)
    requires OrdersValid(orders) && OrderValid(o)
    ensures OrdersValid(orders + [o])
  {
    var r := orders + [o];
    forall i | 0 <= i < |r|
      ensures OrderValid(r[i])
    {
      if i < |orders| {
        assert r[i] == orders[i];
      }
    }
  }

  lemma BillsValidAppend(bills: seq<PosBill>, b: PosBill)
    requires BillsValid(bills) && PosBillValid(b)
    ensures BillsValid(bills + [b])
  {
    var r := bills + [b];
    forall i | 0 <= i < |r|
      ensures PosBillValid(r[i])
    {
      if i < |bills| {
        assert r[i] == bills[i];
      }
    }
  }

  // ---- table writes without validation (findOneAndUpdate / updateOne) ----

  /** `Table.findOneAndUpdate({ tableNumber }, { isBooked: booked, currentOrderId: orderId })`:
      the first table with that number takes the booking and the order; no table is created,
      and the other tables are untouched. */
  function OccupyByNumber(tables: seq<Table>, tableNumber: string, booked: bool, orderId: Id): (r: seq<Table>)
    ensures |r| == |tables|
    ensures forall i :: 0 <= i < |r| ==> r[i].id == tables[i].id && r[i].tableNumber == tables[i].tableNumber
    ensures TableByNumber(tables, tableNumber).None? ==> r == tables
    ensures TableByNumber(tables, tableNumber).Some? ==>
              var k := TableByNumber(tables, tableNumber).value;
              && r[k].isBooked == booked && r[k].currentOrderId == Some(orderId)
              && forall i :: 0 <= i < |r| && i != k ==> r[i] == tables[i]
    ensures TablesLinked(tables) && booked ==> TablesLinked(r)
    ensures TablesValid(tables) ==> TablesValid(r)
    ensures TableNumbersUnique(tables) ==> TableNumbersUnique(r)
  {
    match TableByNumber(tables, tableNumber)
    case None => tables
    case Some(k) => tables[k := Occupied(tables[k], booked, orderId)]
  }

  /** `Table.updateOne({ tableNumber }, { $set: { isBooked: false, currentOrderId: null } })`:
      the first table with that number becomes free; the others are untouched. */
  function ReleaseByNumber(tables: seq<Table>, tableNumber: string): (r: seq<Table>)
    ensures |r| == |tables|
    ensures forall i :: 0 <= i < |r| ==> r[i].id == tables[i].id && r[i].tableNumber == tables[i].tableNumber
    ensures TableByNumber(tables, tableNumber).None? ==> r == tables
    ensures TableByNumber(tables, tableNumber).Some? ==>
              var k := TableByNumber(tables, tableNumber).value;
              && !r[k].isBooked && r[k].currentOrderId.None?
              && forall i :: 0 <= i < |r| && i != k ==> r[i] == tables[i]
    ensures TablesLinked(tables) ==> TablesLinked(r)
    ensures TablesValid(tables) ==> TablesValid(r)
    ensures TableNumbersUnique(tables) ==> TableNumbersUnique(r)
  {
    match TableByNumber(tables, tableNumber)
    case None => tables
    case Some(k) => tables[k := Released(tables[k])]
  }

  /** A snapshot of every collection, for stating what a handler leaves alone. */
  datatype Collections = Collections(
    orders: seq<Order>,
    tables: seq<Table>,
    rooms: seq<Room>,
    bookings: seq<RoomBooking>,
    bills: seq<PosBill>,
    menuItems: seq<MenuItem>,
    users: seq<User>,
    nextId: nat)

  /** Every stored document and line item took its id from the counter before its
      current value. */
  predicate IdsBelowCounter(c: Collections)
  {
    && OrdersIdsBelow(c.orders, c.nextId)
    && TablesIdsBelow(c.tables, c.nextId)
    && RoomsIdsBelow(c.rooms, c.nextId)
    && BookingsIdsBelow(c.bookings, c.nextId)
    && BillsIdsBelow(c.bills, c.nextId)
    && MenuItemsIdsBelow(c.menuItems, c.nextId)
    && UsersIdsBelow(c.users, c.nextId)
  }

  /** Stored documents passed their schema, occupancy links hold, the unique indexes
      hold, and every id is below the counter. */
  predicate CollectionsValid(c: Collections)
  {
    && OrdersValid(c.orders)
    && TablesValid(c.tables)
    && RoomsValid(c.rooms)
    && BookingsValid(c.bookings)
    && BillsValid(c.bills)
    && UsersValid(c.users)
    && TablesLinked(c.tables)
    && RoomsLinked(c.rooms)
    && TableNumbersUnique(c.tables)
    && RoomNumbersUnique(c.rooms)
    && EmailsUnique(c.users)
    && IdsBelowCounter(c)
  }

  /** Raising the counter keeps the collections valid. */
  lemma ValidRaise(c: Collections, m: nat)
    requires CollectionsValid(c) && c.nextId <= m
    ensures CollectionsValid(c.(nextId := m))
  {
    OrdersIdsBelowRaise(c.orders, c.nextId, m);
  }

  /** Appending a valid order whose ids are below the counter keeps the collections valid. */
  lemma ValidAppendOrder(c: Collections, o: Order)
    requires CollectionsValid(c) && OrderValid(o) && OrderIdsBelow(o, c.nextId)
    ensures CollectionsValid(c.(orders := c.orders + [o]))
  {
    OrdersValidAppend(c.orders, o);
    OrdersIdsBelowAppend(c.orders, o, c.nextId);
  }

  /** Overwriting one order with a valid one whose ids are below the counter keeps the
      collections valid. */
  lemma ValidWriteOrder(c: Collections, k: nat, o: Order)
    requires CollectionsValid(c) && k < |c.orders| && OrderValid(o) && OrderIdsBelow(o, c.nextId)
    ensures CollectionsValid(c.(orders := c.orders[k := o]))
  {
    OrdersIdsBelowWrite(c.orders, k, o, c.nextId);
  }

  /** Appending a valid bill whose id is below the counter keeps the collections valid. */
  lemma ValidAppendBill(c: Collections, b: PosBill)
    requires CollectionsValid(c) && PosBillValid(b) && b.id < c.nextId
    ensures CollectionsValid(c.(bills := c.bills + [b]))
  {
    BillsValidAppend(c.bills, b);
    var r := c.bills + [b];
    forall i | 0 <= i < |r|
      ensures r[i].id < c.nextId
    {
      if i < |c.bills| {
        assert r[i] == c.bills[i];
      }
    }
  }

  /** Booking a table on an order keeps the collections valid. */
  lemma ValidOccupy(c: Collections, tableNumber: string, orderId: Id)
    requires CollectionsValid(c)
    ensures CollectionsValid(c.(tables := OccupyByNumber(c.tables, tableNumber, true, orderId)))
  {
  }

  /** Registering a valid user with the counter's id and an unused email keeps the
      collections valid. */
  lemma ValidAddUser(c: Collections, u: User)
    requires CollectionsValid(c) && UserValid(u) && u.id == c.nextId
    requires forall j :: 0 <= j < |c.users| ==> c.users[j].email != u.email
    ensures CollectionsValid(c.(users := c.users + [u], nextId := c.nextId + 1))
  {
    ValidRaise(c, c.nextId + 1);
    var r := c.users + [u];
    forall i | 0 <= i < |r|
      ensures UserValid(r[i]) && r[i].id < c.nextId + 1
    {
      if i < |c.users| {
        assert r[i] == c.users[i];
      }
    }
    forall i, j | 0 <= i < j < |r|
      ensures r[i].email != r[j].email
    {
      assert r[i] == c.users[i];
      if j < |c.users| {
        assert r[j] == c.users[j];
      }
    }
  }

  /** Creating a valid, linked table with the counter's id and an unused number keeps the
      collections valid. */
  lemma ValidAddTable(c: Collections, t: Table)
    requires CollectionsValid(c) && TableValid(t) && Linked(t) && t.id == c.nextId
    requires forall j :: 0 <= j < |c.tables| ==> c.tables[j].tableNumber != t.tableNumber
    ensures CollectionsValid(c.(tables := c.tables + [t], nextId := c.nextId + 1))
  {
    ValidRaise(c, c.nextId + 1);
    var r := c.tables + [t];
    forall i | 0 <= i < |r|
      ensures TableValid(r[i]) && Linked(r[i]) && r[i].id < c.nextId + 1
    {
      if i < |c.tables| {
        assert r[i] == c.tables[i];
      }
    }
    forall i, j | 0 <= i < j < |r|
      ensures r[i].tableNumber != r[j].tableNumber
    {
      assert r[i] == c.tables[i];
      if j < |c.tables| {
        assert r[j] == c.tables[j];
      }
    }
  }

  /** Creating a valid, linked room with the counter's id and an unused number keeps the
      collections valid. */
  lemma ValidAddRoom(c: Collections, rm: Room)
    requires CollectionsValid(c) && RoomValid(rm) && RoomLinked(rm) && rm.id == c.nextId
    requires forall j :: 0 <= j < |c.rooms| ==> c.rooms[j].roomNumber != rm.roomNumber
    ensures CollectionsValid(c.(rooms := c.rooms + [rm], nextId := c.nextId + 1))
  {
    ValidRaise(c, c.nextId + 1);
    var r := c.rooms + [rm];
    forall i | 0 <= i < |r|
      ensures RoomValid(r[i]) && RoomLinked(r[i]) && r[i].id < c.nextId + 1
    {
      if i < |c.rooms| {
        assert r[i] == c.rooms[i];
      }
    }
    forall i, j | 0 <= i < j < |r|
      ensures r[i].roomNumber != r[j].roomNumber
    {
      assert r[i] == c.rooms[i];
      if j < |c.rooms| {
        assert r[j] == c.rooms[j];
      }
    }
  }

  /** Adding a menu item with the counter's id keeps the collections valid. */
  lemma ValidAddMenuItem(c: Collections, m: MenuItem)
    requires CollectionsValid(c) && m.id == c.nextId
    ensures CollectionsValid(c.(menuItems := c.menuItems + [m], nextId := c.nextId + 1))
  {
    ValidRaise(c, c.nextId + 1);
    var r := c.menuItems + [m];
    forall i | 0 <= i < |r|
      ensures r[i].id < c.nextId + 1
    {
      if i < |c.menuItems| {
        assert r[i] == c.menuItems[i];
      }
    }
  }

  /** Storing a booking with the counter's id and flagging room `k` booked keeps the
      collections valid. */
  lemma ValidBookRoom(c: Collections, b: RoomBooking, k: nat)
    requires CollectionsValid(c) && k < |c.rooms| && b.id == c.nextId
    requires b.customerName != "" && b.contactNumber != ""
    ensures CollectionsValid(c.(bookings := c.bookings + [b], rooms := c.rooms[k := c.rooms[k].(isBooked := true)],
                                nextId := c.nextId + 1))
  {
    ValidRaise(c, c.nextId + 1);
    var r := c.bookings + [b];
    forall i | 0 <= i < |r|
      ensures r[i].customerName != "" && r[i].contactNumber != "" && r[i].id < c.nextId + 1
    {
      if i < |c.bookings| {
        assert r[i] == c.bookings[i];
      }
    }
    var rooms := c.rooms[k := c.rooms[k].(isBooked := true)];
    assert forall j :: 0 <= j < |rooms| ==> rooms[j].roomNumber == c.rooms[j].roomNumber;
  }

  class Db {
    var orders: seq<Order>
    var tables: seq<Table>
    var rooms: seq<Room>
    var bookings: seq<RoomBooking>
    var bills: seq<PosBill>
    var menuItems: seq<MenuItem>
    var users: seq<User>
    /** The next unused document id. */
    var nextId: nat

    /** What every handler relies on and preserves. */
    ghost predicate Valid()
      reads this
    {
      CollectionsValid(Snapshot())
    }

    ghost function Snapshot(): Collections
      reads this
    {
      Collections(orders, tables, rooms, bookings, bills, menuItems, users, nextId)
    }

    /** An empty database. */
    constructor ()
      ensures Valid()
      ensures Snapshot() == Collections([], [], [], [], [], [], [], 0)
    {
      orders, tables, rooms, bookings := [], [], [], [];
      bills, menuItems, users := [], [], [];
      nextId := 0;
    }
  }
}
