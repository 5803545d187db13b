/** The dining table document: its number, booking flag and the order it is serving. */
module TableModel {
  import opened Common

  /** `qrUrl` and `qrImage` belong to the QR upload and are not modelled. */
  datatype Table = Table(id: Id, tableNumber: string, isBooked: bool, currentOrderId: Option<Id>)

  /** The schema's only validator: `tableNumber` is a required string. */
  predicate TableValid(t: Table)
  {
    t.tableNumber != ""
  }

  /** The occupancy link every handler keeps: a table that points at an order is booked.
      The converse is not required: a table can be booked without an order. */
  predicate Linked(t: Table)
  {
    t.currentOrderId.Some? ==> t.isBooked
  }

  /** A freshly created table takes the schema defaults: free, with no current order. */
  function NewTable(id: Id, tableNumber: string): (t: Table)
    ensures t.id == id && t.tableNumber == tableNumber
    ensures !t.isBooked && t.currentOrderId.None?
    ensures Linked(t)
    ensures TableValid(t) <==> tableNumber != ""
  {
    Table(id, tableNumber, false, None)
  }

  /** The table as `{ isBooked: booked, currentOrderId: Some(orderId) }` leaves it; the
      link holds exactly when the update books the table. */
  function Occupied(t: Table, booked: bool, orderId: Id): (r: Table)
    ensures r.id == t.id && r.tableNumber == t.tableNumber
    ensures r.currentOrderId == Some(orderId)
    ensures Linked(r) <==> booked
  {
    t.(isBooked := booked, currentOrderId := Some(orderId))
  }

  /** The table after a release: free and pointing at no order. */
  function Released(t: Table): (r: Table)
    ensures r.id == t.id && r.tableNumber == t.tableNumber
    ensures !r.isBooked && r.currentOrderId.None?
    ensures Linked(r)
  {
    t.(isBooked := false, currentOrderId := None)
  }
}
