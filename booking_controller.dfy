/** The customer room-booking handlers: book a room, and change a booking's status. */
module BookingController {
  import opened Common
  import opened OrderModel
  import opened RoomModel
  import opened RoomBookModel
  import opened Store
  import opened RoomController

  /** bookRoomAsCustomer's guards: the room must exist and no booking for it may still be
      booked or checked in. The room's own `isBooked` flag is not consulted. */
  function BookRoomGuard(rooms: seq<Room>, bookings: seq<RoomBooking>, roomNumber: string): (r: Option<Response>)
    ensures RoomByNumber(rooms, roomNumber).None? ==> r == Some(Response(404, "Room not found."))
    ensures RoomByNumber(rooms, roomNumber).Some? ==>
              var rm := rooms[RoomByNumber(rooms, roomNumber).value];
              && (r.None? <==> ActiveBookingFor(bookings, rm.id).None?)
              && (r.Some? ==> r == Some(Response(400, "Room is already booked.")))
  {
    match RoomByNumber(rooms, roomNumber)
    case None => Some(Response(404, "Room not found."))
    case Some(k) =>
      if ActiveBookingFor(bookings, rooms[k].id).Some? then Some(Response(400, "Room is already booked."))
      else None
  }

  /** `bookRoomAsCustomer`: the booking is stored as checked-in (not the schema default)
      and the room is flagged booked; its current order is left as it was. A booking
      without a customer name or contact number fails validation and answers 500. */
  method BookRoomAsCustomer(db: Db, roomNumber: string, customerName: Option<string>,
                            contactNumber: Option<string>) returns (resp: Response)
    requires db.Valid()
    modifies db
    ensures db.Valid()
    ensures BookRoomGuard(old(db.rooms), old(db.bookings), roomNumber).Some? ==>
              resp == BookRoomGuard(old(db.rooms), old(db.bookings), roomNumber).value
              && db.Snapshot() == old(db.Snapshot())
    ensures BookRoomGuard(old(db.rooms), old(db.bookings), roomNumber).None? ==>
              var k := RoomByNumber(old(db.rooms), roomNumber).value;
              var b := SaveNewBooking(old(db.nextId), old(db.rooms)[k].id, customerName, contactNumber,
                                      Some("checked-in"));
              && (b.None? ==> resp == Response(500, "Internal server error") && db.Snapshot() == old(db.Snapshot()))
              && (b.Some? ==>
                    && resp == Response(201, "Room booked successfully")
                    && b.value.status == CheckedIn
                    && db.bookings == old(db.bookings) + [b.value]
                    && db.rooms == old(db.rooms)[k := old(db.rooms)[k].(isBooked := true)]
                    && db.nextId == old(db.nextId) + 1
                    && db.Snapshot() == old(db.Snapshot()).(bookings := db.bookings, rooms := db.rooms,
                                                            nextId := db.nextId))
  {
    var g := BookRoomGuard(db.rooms, db.bookings, roomNumber);
    if g.Some? {
      return g.value;
    }
    var k := RoomByNumber(db.rooms, roomNumber).value;
    var b := SaveNewBooking(db.nextId, db.rooms[k].id, customerName, contactNumber, Some("checked-in"));
    if b.None? {
      return Response(500, "Internal server error");
    }
    assert BookingStatusName(b.value.status) == "checked-in";
    ValidBookRoom(db.Snapshot(), b.value, k);
    ghost var after := db.Snapshot().(bookings := db.bookings + [b.value],
                                      rooms := db.rooms[k := db.rooms[k].(isBooked := true)], nextId := db.nextId + 1);
    db.bookings, db.rooms, db.nextId := db.bookings + [b.value], db.rooms[k := db.rooms[k].(isBooked := true)],
                                        db.nextId + 1;
    assert db.Snapshot() == after;
    return Response(201, "Room booked successfully");
  }

  /** A free room booked by a customer has no current order, so checkOutRoom refuses it
      with "Order not completed yet" for as long as nothing checks it in. */
  lemma CustomerBookingBlocksCheckOut(rooms: seq<Room>, orders: seq<Order>, roomNumber: string)
    requires RoomsLinked(rooms) && RoomNumbersUnique(rooms)
    requires RoomByNumber(rooms, roomNumber).Some? && !rooms[RoomByNumber(rooms, roomNumber).value].isBooked
    ensures var k := RoomByNumber(rooms, roomNumber).value;
            var after := rooms[k := rooms[k].(isBooked := true)];
            CheckOutGuard(after, orders, roomNumber) == Some(Response(400, "Order not completed yet"))
  {
    var k := RoomByNumber(rooms, roomNumber).value;
    var after := rooms[k := rooms[k].(isBooked := true)];
    assert forall j :: 0 <= j < |after| ==> after[j].roomNumber == rooms[j].roomNumber;
    assert RoomByNumber(after, roomNumber) == Some(k);
    BookedWithoutOrderNeverChecksOut(after, orders, roomNumber);
  }

  /** `updateBookingStatus`: any of the four statuses replaces the booking's status, with
      no transition check; the room is never touched, so cancelling or checking out a
      booking leaves the room flagged booked. */
  method UpdateBookingStatus(db: Db, bookingId: Id, status: Option<string>) returns (resp: Response)
    requires db.Valid()
    modifies db
    ensures db.Valid()
    ensures (status.None? || ParseBookingStatus(status.value).None?) ==>
              resp == Response(400, "Invalid status.") && db.Snapshot() == old(db.Snapshot())
    ensures status.Some? && ParseBookingStatus(status.value).Some? && BookingById(old(db.bookings), bookingId).None? ==>
              resp == Response(404, "Booking not found.") && db.Snapshot() == old(db.Snapshot())
    ensures status.Some? && ParseBookingStatus(status.value).Some? && BookingById(old(db.bookings), bookingId).Some? ==>
              var k := BookingById(old(db.bookings), bookingId).value;
              && resp == Response(200, "Booking status updated successfully")
              && db.bookings == old(db.bookings)[k := old(db.bookings)[k].(status := ParseBookingStatus(status.value).value)]
              && BookingStatusName(db.bookings[k].status) == status.value
              && db.Snapshot() == old(db.Snapshot()).(bookings := db.bookings)
  {
    if status.None? || ParseBookingStatus(status.value).None? {
      return Response(400, "Invalid status.");
    }
    var found := BookingById(db.bookings, bookingId);
    if found.None? {
      return Response(404, "Booking not found.");
    }
    var k := found.value;
    db.bookings := db.bookings[k := db.bookings[k].(status := ParseBookingStatus(status.value).value)];
    return Response(200, "Booking status updated successfully");
  }
}
