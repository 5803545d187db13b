/** The hotel room document: number, type, capacity, price, amenities, photos and the
    same booking link as a table. */
module RoomModel {
  import opened Common

  /** A photo sub-document: the Cloudinary `public_id` and its `url`. */
  datatype Photo = Photo(publicId: string, url: string)

  /** QR fields and the check-in/check-out dates are not modelled. */
  datatype Room = Room(
    id: Id,
    roomNumber: string,
    roomType: string,
    capacity: real,
    pricePerNight: real,
    amenities: seq<string>,
    isBooked: bool,
    currentOrderId: Option<Id>,
    photos: seq<Photo>)

  /** Required strings: `roomNumber` and `roomType` (`pricePerNight` is always present
      in the document type). */
  predicate RoomValid(r: Room)
  {
    r.roomNumber != "" && r.roomType != ""
  }

  /** A room pointing at an order is booked. */
  predicate RoomLinked(r: Room)
  {
    r.currentOrderId.Some? ==> r.isBooked
  }

  const DefaultCapacity: real := 2.0

  /** A new room takes the schema defaults: capacity 2 when none is given, no amenities
      when none are given, free and with no current order. */
  function NewRoom(id: Id, roomNumber: string, roomType: string, capacity: Option<real>,
                   pricePerNight: real, amenities: Option<seq<string>>, photos: seq<Photo>): (r: Room)
    ensures r.id == id && r.roomNumber == roomNumber && r.roomType == roomType
    ensures r.pricePerNight == pricePerNight && r.photos == photos
    ensures capacity.None? ==> r.capacity == 2.0
    ensures capacity.Some? ==> r.capacity == capacity.value
    ensures amenities.None? ==> r.amenities == []
    ensures amenities.Some? ==> r.amenities == amenities.value
    ensures !r.isBooked && r.currentOrderId.None? && RoomLinked(r)
  {
    Room(id, roomNumber, roomType, capacity.GetOr(DefaultCapacity), pricePerNight,
         amenities.GetOr([]), false, None, photos)
  }
}
