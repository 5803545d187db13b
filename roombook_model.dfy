/** The room booking document and its four-valued status. */
module RoomBookModel {
  import opened Common

  datatype BookingStatus = Booked | CheckedIn | CheckedOut | BookingCancelled

  function BookingStatusName(s: BookingStatus): string
  {
    match s
    case Booked => "booked"
    case CheckedIn => "checked-in"
    case CheckedOut => "checked-out"
    case BookingCancelled => "cancelled"
  }

  /** The schema's `status` enum. */
  function ParseBookingStatus(s: string): (r: Option<BookingStatus>)
    ensures r.Some? <==> s in ["booked", "checked-in", "checked-out", "cancelled"]
    ensures r.Some? ==> BookingStatusName(r.value) == s
  {
    if s == "booked" then Some(Booked)
    else if s == "checked-in" then Some(CheckedIn)
    else if s == "checked-out" then Some(CheckedOut)
    else if s == "cancelled" then Some(BookingCancelled)
    else None
  }

  lemma BookingStatusRoundTrip(s: BookingStatus)
    ensures ParseBookingStatus(BookingStatusName(s)) == Some(s)
  {
  }

  /** `checkInDate` (default: the creation time) and `checkOutDate` are not modelled. */
  datatype RoomBooking = RoomBooking(id: Id, room: Id, customerName: string, contactNumber: string,
                                     status: BookingStatus)

  /** A booking that still holds its room. */
  predicate HoldsRoom(b: RoomBooking)
  {
    b.status == Booked || b.status == CheckedIn
  }

  /** What `new RoomBooking(fields).save()` stores: `None` when customerName or
      contactNumber is missing or "", or the status is unknown; the status defaults to
      "booked". */
  function SaveNewBooking(id: Id, room: Id, customerName: Option<string>,
                          contactNumber: Option<string>, status: Option<string>): (r: Option<RoomBooking>)
    ensures r.Some? <==> Truthy(customerName) && Truthy(contactNumber)
                         && (status.Some? ==> ParseBookingStatus(status.value).Some?)
    ensures r.Some? ==> r.value.id == id && r.value.room == room
    ensures r.Some? ==> Some(r.value.customerName) == customerName
    ensures r.Some? ==> Some(r.value.contactNumber) == contactNumber
    ensures r.Some? && status.None? ==> r.value.status == Booked
    ensures r.Some? && status.Some? ==> BookingStatusName(r.value.status) == status.value
  {
    var st := if status.Some? then ParseBookingStatus(status.value) else Some(Booked);
    if !Truthy(customerName) || !Truthy(contactNumber) || st.None? then None
    else Some(RoomBooking(id, room, customerName.value, contactNumber.value, st.value))
  }
}
