/** The table handlers: create, release, delete, toggle the booking flag, and the
    booked/unbooked counts. */
module TableController {
  import opened Common
  import opened OrderModel
  import opened TableModel
  import opened Store

  /** createTable's guards, in source order: a table number must be given, and no
      table may already carry it. */
  function CreateTableGuard(tables: seq<Table>, tableNumber: Option<string>): (r: Option<Response>)
    ensures r.None? <==> Truthy(tableNumber) && TableByNumber(tables, tableNumber.value).None?
    ensures !Truthy(tableNumber) ==> r == Some(Response(400, "Valid table number is required."))
    ensures Truthy(tableNumber) && TableByNumber(tables, tableNumber.value).Some? ==>
              r == Some(Response(400, "Table already exists."))
  {
    if !Truthy(tableNumber) then Some(Response(400, "Valid table number is required."))
    else if TableByNumber(tables, tableNumber.value).Some? then Some(Response(400, "Table already exists."))
    else None
  }

  /** `createTable`: a new free table with the next id is appended; a refused request
      changes nothing. */
  method CreateTable(db: Db, tableNumber: Option<string>) returns (resp: Response, created: Option<Table>)
    requires db.Valid()
    modifies db
    ensures db.Valid()
    ensures CreateTableGuard(old(db.tables), tableNumber).Some? ==>
              resp == CreateTableGuard(old(db.tables), tableNumber).value && created.None?
              && db.Snapshot() == old(db.Snapshot())
    ensures CreateTableGuard(old(db.tables), tableNumber).None? ==>
              && created == Some(NewTable(old(db.nextId), tableNumber.value))
              && resp == Response(201, "Table created with QR code.")
              && db.tables == old(db.tables) + [created.value]
              && db.nextId == old(db.nextId) + 1
              && db.Snapshot() == old(db.Snapshot()).(tables := db.tables, nextId := db.nextId)
  {
    var g := CreateTableGuard(db.tables, tableNumber);
    if g.Some? {
      return g.value, None;
    }
    var t := NewTable(db.nextId, tableNumber.value);
    ValidAddTable(db.Snapshot(), t);
    ghost var after := db.Snapshot().(tables := db.tables + [t], nextId := db.nextId + 1);
    db.tables, db.nextId := db.tables + [t], db.nextId + 1;
    assert db.Snapshot() == after;
    return Response(201, "Table created with QR code."), Some(t);
  }

  /** releaseTable's guards. A missing or free table is refused; a booked table with no
      current order, or whose current order no longer exists, may be released; otherwise
      its order must be completed. */
  function ReleaseTableGuard(tables: seq<Table>, orders: seq<Order>, tableNumber: string): (r: Option<Response>)
    ensures TableByNumber(tables, tableNumber).None? ==> r == Some(Response(400, "Table is not booked"))
    ensures TableByNumber(tables, tableNumber).Some? ==>
              var t := tables[TableByNumber(tables, tableNumber).value];
              && (!t.isBooked ==> r == Some(Response(400, "Table is not booked")))
              && (t.isBooked && t.currentOrderId.None? ==> r.None?)
              && (t.isBooked && t.currentOrderId.Some? && OrderIndex(orders, t.currentOrderId.value).None? ==>
                    r.None?)
              && (t.isBooked && t.currentOrderId.Some? && OrderIndex(orders, t.currentOrderId.value).Some? ==>
                    var o := orders[OrderIndex(orders, t.currentOrderId.value).value];
                    && (o.status == Completed ==> r.None?)
                    && (o.status != Completed ==> r == Some(Response(400, "Order not completed yet"))))
  {
    match TableByNumber(tables, tableNumber)
    case None => Some(Response(400, "Table is not booked"))
    case Some(k) =>
      var t := tables[k];
      if !t.isBooked then Some(Response(400, "Table is not booked"))
      else if t.currentOrderId.None? then None
      else match OrderIndex(orders, t.currentOrderId.value)
        case None => None
        case Some(j) => if orders[j].status != Completed then Some(Response(400, "Order not completed yet")) else None
  }

  /** `releaseTable`: every release path frees the table and drops its order; a refusal
      leaves the store unchanged. */
  method ReleaseTable(db: Db, tableNumber: string) returns (resp: Response)
    requires db.Valid()
    modifies db
    ensures db.Valid()
    ensures ReleaseTableGuard(old(db.tables), old(db.orders), tableNumber).Some? ==>
              resp == ReleaseTableGuard(old(db.tables), old(db.orders), tableNumber).value
              && db.Snapshot() == old(db.Snapshot())
    ensures ReleaseTableGuard(old(db.tables), old(db.orders), tableNumber).None? ==>
              && resp == Response(200, "Table released successfully")
              && db.tables == ReleaseByNumber(old(db.tables), tableNumber)
              && db.Snapshot() == old(db.Snapshot()).(tables := db.tables)
  {
    var g := ReleaseTableGuard(db.tables, db.orders, tableNumber);
    if g.Some? {
      return g.value;
    }
    db.tables := ReleaseByNumber(db.tables, tableNumber);
    return Response(200, "Table released successfully");
  }

  /** A release that goes through leaves the named table free and pointing at no order. */
  lemma ReleaseFreesTable(tables: seq<Table>, orders: seq<Order>, tableNumber: string)
    requires ReleaseTableGuard(tables, orders, tableNumber).None?
    ensures TableByNumber(tables, tableNumber).Some?
    ensures var k := TableByNumber(tables, tableNumber).value;
            var r := ReleaseByNumber(tables, tableNumber);
            TableByNumber(r, tableNumber) == Some(k) && !r[k].isBooked && r[k].currentOrderId.None?
  {
    var k := TableByNumber(tables, tableNumber).value;
    var r := ReleaseByNumber(tables, tableNumber);
    assert r[k].tableNumber == tableNumber;
    assert forall j :: 0 <= j < k ==> r[j].tableNumber == tables[j].tableNumber;
  }

  /** deleteTable's guards: the table must exist and be free. */
  function DeleteTableGuard(tables: seq<Table>, tableId: Id): (r: Option<Response>)
    ensures TableById(tables, tableId).None? ==> r == Some(Response(404, "Table not found"))
    ensures TableById(tables, tableId).Some? ==>
              (r.None? <==> !tables[TableById(tables, tableId).value].isBooked)
    ensures TableById(tables, tableId).Some? && r.Some? ==> r == Some(Response(400, "Cannot delete a booked table"))
  {
    match TableById(tables, tableId)
    case None => Some(Response(404, "Table not found"))
    case Some(k) => if tables[k].isBooked then Some(Response(400, "Cannot delete a booked table")) else None
  }

  /** `deleteTable`: a free table is removed and every other table keeps its place. */
  method DeleteTable(db: Db, tableId: Id) returns (resp: Response)
    requires db.Valid()
    modifies db
    ensures db.Valid()
    ensures DeleteTableGuard(old(db.tables), tableId).Some? ==>
              resp == DeleteTableGuard(old(db.tables), tableId).value && db.Snapshot() == old(db.Snapshot())
    ensures DeleteTableGuard(old(db.tables), tableId).None? ==>
              && resp == Response(200, "Table deleted successfully")
              && db.tables == RemoveAt(old(db.tables), TableById(old(db.tables), tableId).value)
              && db.Snapshot() == old(db.Snapshot()).(tables := db.tables)
  {
    var g := DeleteTableGuard(db.tables, tableId);
    if g.Some? {
      return g.value;
    }
    var k := TableById(db.tables, tableId).value;
    db.tables := RemoveAt(db.tables, k);
    return Response(200, "Table deleted successfully");
  }

  /** The table after `toggleTableBooking`: the flag takes the requested value (an absent
      value reads back as the default, false) and unbooking clears the current order.
      Either way the table keeps the occupancy link. */
  function Toggled(t: Table, isBooked: Option<bool>): (r: Table)
    ensures r.id == t.id && r.tableNumber == t.tableNumber
    ensures r.isBooked <==> isBooked == Some(true)
    ensures r.isBooked ==> r.currentOrderId == t.currentOrderId
    ensures Linked(r)
  {
    if isBooked == Some(true) then t.(isBooked := true)
    else t.(isBooked := false, currentOrderId := None)
  }

  function ToggleMessage(isBooked: Option<bool>): string
  {
    if isBooked == Some(true) then "Table booked successfully" else "Table unbooked successfully"
  }

  /** `toggleTableBooking`: only the table with that id changes. */
  method ToggleTableBooking(db: Db, tableId: Id, isBooked: Option<bool>) returns (resp: Response)
    requires db.Valid()
    modifies db
    ensures db.Valid()
    ensures TableById(old(db.tables), tableId).None? ==>
              resp == Response(404, "Table not found") && db.Snapshot() == old(db.Snapshot())
    ensures TableById(old(db.tables), tableId).Some? ==>
              var k := TableById(old(db.tables), tableId).value;
              && resp == Response(200, ToggleMessage(isBooked))
              && db.tables == old(db.tables)[k := Toggled(old(db.tables)[k], isBooked)]
              && db.Snapshot() == old(db.Snapshot()).(tables := db.tables)
  {
    var found := TableById(db.tables, tableId);
    if found.None? {
      return Response(404, "Table not found");
    }
    var k := found.value;
    db.tables := db.tables[k := Toggled(db.tables[k], isBooked)];
    return Response(200, ToggleMessage(isBooked));
  }

  datatype TableCounts = TableCounts(total: nat, booked: nat, unbooked: nat)

  predicate IsBookedTable(t: Table)
  {
    t.isBooked
  }

  predicate IsFreeTable(t: Table)
  {
    !t.isBooked
  }

  /** `getTableBookingStatusCounts`: the three `countDocuments` queries. Every table is
      either booked or free, so the two counts add up to the total. */
  function BookingStatusCounts(tables: seq<Table>): (r: TableCounts)
    ensures r.total == |tables|
    ensures r.booked + r.unbooked == r.total
    ensures r.booked == 0 <==> forall i :: 0 <= i < |tables| ==> !tables[i].isBooked
    ensures r.unbooked == 0 <==> forall i :: 0 <= i < |tables| ==> tables[i].isBooked
  {
    CountPartition(tables, IsBookedTable, IsFreeTable);
    TableCounts(|tables|, Count(tables, IsBookedTable), Count(tables, IsFreeTable))
  }
}
