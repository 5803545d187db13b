/** The room handlers: create and update with their guards, check-in, check-out, the
    room food order, delete, and removing one photo. */
module RoomController {
  import opened Common
  import opened OrderModel
  import opened RoomModel
  import opened Store

  /** The `amenities` request field: absent, an array, or a single value. */
  datatype AmenitiesField = NoAmenities | AmenityList(list: seq<string>) | OneAmenity(name: string)

  /** createRoom's reading of `amenities`: absent gives the default [], an array is
      kept, and a single value is wrapped in an array. */
  function CreateAmenities(a: AmenitiesField): (r: seq<string>)
    ensures a.NoAmenities? ==> r == []
    ensures a.AmenityList? ==> r == a.list
    ensures a.OneAmenity? ==> r == [a.name]
  {
    match a
    case NoAmenities => []
    case AmenityList(l) => l
    case OneAmenity(s) => [s]
  }

  /** createRoom's guards: room number, type and price are required (a price of 0 counts
      as missing), and the number must be unused. */
  function CreateRoomGuard(rooms: seq<Room>, roomNumber: Option<string>, roomType: Option<string>,
                           pricePerNight: Option<real>): (r: Option<Response>)
    ensures r.None? <==> Truthy(roomNumber) && Truthy(roomType) && TruthyNum(pricePerNight)
                         && RoomByNumber(rooms, roomNumber.value).None?
    ensures !(Truthy(roomNumber) && Truthy(roomType) && TruthyNum(pricePerNight)) ==>
              r == Some(Response(400, "Missing required fields."))
    ensures (Truthy(roomNumber) && Truthy(roomType) && TruthyNum(pricePerNight)
             && RoomByNumber(rooms, roomNumber.value).Some?) ==> r == Some(Response(400, "Room already exists."))
  {
    if !Truthy(roomNumber) || !Truthy(roomType) || !TruthyNum(pricePerNight) then
      Some(Response(400, "Missing required fields."))
    else if RoomByNumber(rooms, roomNumber.value).Some? then Some(Response(400, "Room already exists."))
    else None
  }

  /** The room createRoom stores: a capacity of 0 or none becomes 2; `photos` are the
      upload results. */
  function CreatedRoom(id: Id, roomNumber: string, roomType: string, capacity: Option<real>,
                       pricePerNight: real, amenities: AmenitiesField, photos: seq<Photo>): (r: Room)
    requires roomNumber != "" && roomType != ""
    ensures r.id == id && r.roomNumber == roomNumber && r.roomType == roomType
    ensures TruthyNum(capacity) ==> r.capacity == capacity.value
    ensures !TruthyNum(capacity) ==> r.capacity == DefaultCapacity
    ensures r.amenities == CreateAmenities(amenities) && r.photos == photos
    ensures !r.isBooked && r.currentOrderId.None?
    ensures RoomValid(r) && RoomLinked(r)
  {
    NewRoom(id, roomNumber, roomType, if TruthyNum(capacity) then capacity else None, pricePerNight,
            Some(CreateAmenities(amenities)), photos)
  }

  /** `createRoom`: a new free room with the next id is appended. */
  method CreateRoom(db: Db, roomNumber: Option<string>, roomType: Option<string>, capacity: Option<real>,
                    pricePerNight: Option<real>, amenities: AmenitiesField, photos: seq<Photo>)
    returns (resp: Response)
    requires db.Valid()
    modifies db
    ensures db.Valid()
    ensures CreateRoomGuard(old(db.rooms), roomNumber, roomType, pricePerNight).Some? ==>
              resp == CreateRoomGuard(old(db.rooms), roomNumber, roomType, pricePerNight).value
              && db.Snapshot() == old(db.Snapshot())
    ensures CreateRoomGuard(old(db.rooms), roomNumber, roomType, pricePerNight).None? ==>
              && resp == Response(201, "Room created with QR code and photos.")
              && db.rooms == old(db.rooms) + [CreatedRoom(old(db.nextId), roomNumber.value, roomType.value,
                                                          capacity, pricePerNight.value, amenities, photos)]
              && db.nextId == old(db.nextId) + 1
              && db.Snapshot() == old(db.Snapshot()).(rooms := db.rooms, nextId := db.nextId)
  {
    var g := CreateRoomGuard(db.rooms, roomNumber, roomType, pricePerNight);
    if g.Some? {
      return g.value;
    }
    var rm := CreatedRoom(db.nextId, roomNumber.value, roomType.value, capacity, pricePerNight.value,
                          amenities, photos);
    ValidAddRoom(db.Snapshot(), rm);
    ghost var after := db.Snapshot().(rooms := db.rooms + [rm], nextId := db.nextId + 1);
    db.rooms, db.nextId := db.rooms + [rm], db.nextId + 1;
    assert db.Snapshot() == after;
    return Response(201, "Room created with QR code and photos.");
  }

  /** updateRoom's guards: the room must exist, and a new, different room number must
      not belong to any room. */
  function UpdateRoomGuard(rooms: seq<Room>, roomId: Id, roomNumber: Option<string>): (r: Option<Response>)
    ensures RoomById(rooms, roomId).None? ==> r == Some(Response(404, "Room not found"))
    ensures RoomById(rooms, roomId).Some? ==>
              var rm := rooms[RoomById(rooms, roomId).value];
              (r.None? <==> !(Truthy(roomNumber) && roomNumber.value != rm.roomNumber
                              && RoomByNumber(rooms, roomNumber.value).Some?))
    ensures RoomById(rooms, roomId).Some? && r.Some? ==> r == Some(Response(400, "Room number already exists"))
  {
    match RoomById(rooms, roomId)
    case None => Some(Response(404, "Room not found"))
    case Some(k) =>
      if Truthy(roomNumber) && roomNumber.value != rooms[k].roomNumber
         && RoomByNumber(rooms, roomNumber.value).Some?
      then Some(Response(400, "Room number already exists"))
      else None
  }

  /** The room after updateRoom's assignments. capacity is replaced whenever it is
      supplied; the number, type and price only when truthy; amenities when present,
      except the empty string; photos when new ones were uploaded. The booking state
      is untouched and the schema still holds. */
  function UpdatedRoom(rm: Room, roomNumber: Option<string>, roomType: Option<string>, capacity: Option<real>,
                       pricePerNight: Option<real>, amenities: AmenitiesField, newPhotos: seq<Photo>): (r: Room)
    ensures r.id == rm.id && r.isBooked == rm.isBooked && r.currentOrderId == rm.currentOrderId
    ensures r.roomNumber == (if Truthy(roomNumber) then roomNumber.value else rm.roomNumber)
    ensures r.roomType == (if Truthy(roomType) then roomType.value else rm.roomType)
    ensures r.capacity == capacity.GetOr(rm.capacity)
    ensures r.pricePerNight == (if TruthyNum(pricePerNight) then pricePerNight.value else rm.pricePerNight)
    ensures amenities.AmenityList? ==> r.amenities == amenities.list
    ensures amenities.OneAmenity? && amenities.name != "" ==> r.amenities == [amenities.name]
    ensures amenities.NoAmenities? || amenities == OneAmenity("") ==> r.amenities == rm.amenities
    ensures r.photos == (if |newPhotos| > 0 then newPhotos else rm.photos)
    ensures RoomValid(rm) ==> RoomValid(r)
    ensures RoomLinked(rm) ==> RoomLinked(r)
  {
    var am := match amenities
      case NoAmenities => rm.amenities
      case AmenityList(l) => l
      case OneAmenity(s) => if s != "" then [s] else rm.amenities;
    rm.(roomNumber := if Truthy(roomNumber) then roomNumber.value else rm.roomNumber,
        roomType := if Truthy(roomType) then roomType.value else rm.roomType,
        capacity := capacity.GetOr(rm.capacity),
        pricePerNight := if TruthyNum(pricePerNight) then pricePerNight.value else rm.pricePerNight,
        amenities := am,
        photos := if |newPhotos| > 0 then newPhotos else rm.photos)
  }

  /** `updateRoom`: only the room with that id changes, and room numbers stay unique. */
  method UpdateRoom(db: Db, roomId: Id, roomNumber: Option<string>, roomType: Option<string>,
                    capacity: Option<real>, pricePerNight: Option<real>, amenities: AmenitiesField,
                    newPhotos: seq<Photo>) returns (resp: Response)
    requires db.Valid()
    modifies db
    ensures db.Valid()
    ensures UpdateRoomGuard(old(db.rooms), roomId, roomNumber).Some? ==>
              resp == UpdateRoomGuard(old(db.rooms), roomId, roomNumber).value
              && db.Snapshot() == old(db.Snapshot())
    ensures UpdateRoomGuard(old(db.rooms), roomId, roomNumber).None? ==>
              var k := RoomById(old(db.rooms), roomId).value;
              && resp == Response(200, "Room updated successfully")
              && db.rooms == old(db.rooms)[k := UpdatedRoom(old(db.rooms)[k], roomNumber, roomType, capacity,
                                                            pricePerNight, amenities, newPhotos)]
              && db.Snapshot() == old(db.Snapshot()).(rooms := db.rooms)
  {
    var g := UpdateRoomGuard(db.rooms, roomId, roomNumber);
    if g.Some? {
      return g.value;
    }
    var k := RoomById(db.rooms, roomId).value;
    var rm := UpdatedRoom(db.rooms[k], roomNumber, roomType, capacity, pricePerNight, amenities, newPhotos);
    db.rooms := db.rooms[k := rm];
    return Response(200, "Room updated successfully");
  }

  /** checkInRoom's guards: the room must exist and be free. */
  function CheckInGuard(rooms: seq<Room>, roomNumber: string): (r: Option<Response>)
    ensures RoomByNumber(rooms, roomNumber).None? ==> r == Some(Response(404, "Room not found"))
    ensures RoomByNumber(rooms, roomNumber).Some? ==>
              (r.None? <==> !rooms[RoomByNumber(rooms, roomNumber).value].isBooked)
    ensures RoomByNumber(rooms, roomNumber).Some? && r.Some? ==> r == Some(Response(400, "Room is already booked"))
  {
    match RoomByNumber(rooms, roomNumber)
    case None => Some(Response(404, "Room not found"))
    case Some(k) => if rooms[k].isBooked then Some(Response(400, "Room is already booked")) else None
  }

  /** `checkInRoom`: the room becomes booked on the given order (which is not looked up,
      and may be absent). */
  method CheckInRoom(db: Db, roomNumber: string, orderId: Option<Id>) returns (resp: Response)
    requires db.Valid()
    modifies db
    ensures db.Valid()
    ensures CheckInGuard(old(db.rooms), roomNumber).Some? ==>
              resp == CheckInGuard(old(db.rooms), roomNumber).value && db.Snapshot() == old(db.Snapshot())
    ensures CheckInGuard(old(db.rooms), roomNumber).None? ==>
              var k := RoomByNumber(old(db.rooms), roomNumber).value;
              && resp == Response(200, "Room checked in successfully")
              && db.rooms == old(db.rooms)[k := old(db.rooms)[k].(isBooked := true, currentOrderId := orderId)]
              && db.Snapshot() == old(db.Snapshot()).(rooms := db.rooms)
  {
    var g := CheckInGuard(db.rooms, roomNumber);
    if g.Some? {
      return g.value;
    }
    var k := RoomByNumber(db.rooms, roomNumber).value;
    db.rooms := db.rooms[k := db.rooms[k].(isBooked := true, currentOrderId := orderId)];
    return Response(200, "Room checked in successfully");
  }

  /** checkOutRoom's guards: the room must be booked, and its current order must exist
      and be completed. Unlike a table release, a missing order blocks. */
  function CheckOutGuard(rooms: seq<Room>, orders: seq<Order>, roomNumber: string): (r: Option<Response>)
    ensures RoomByNumber(rooms, roomNumber).None? ==> r == Some(Response(400, "Room is not booked"))
    ensures RoomByNumber(rooms, roomNumber).Some? ==>
              var rm := rooms[RoomByNumber(rooms, roomNumber).value];
              && (!rm.isBooked ==> r == Some(Response(400, "Room is not booked")))
              && (rm.isBooked ==>
                    (r.None? <==> rm.currentOrderId.Some? && OrderIndex(orders, rm.currentOrderId.value).Some?
                                  && orders[OrderIndex(orders, rm.currentOrderId.value).value].status == Completed))
              && (rm.isBooked && r.Some? ==> r == Some(Response(400, "Order not completed yet")))
  {
    match RoomByNumber(rooms, roomNumber)
    case None => Some(Response(400, "Room is not booked"))
    case Some(k) =>
      var rm := rooms[k];
      if !rm.isBooked then Some(Response(400, "Room is not booked"))
      else if rm.currentOrderId.None? then Some(Response(400, "Order not completed yet"))
      else match OrderIndex(orders, rm.currentOrderId.value)
        case None => Some(Response(400, "Order not completed yet"))
        case Some(j) => if orders[j].status != Completed then Some(Response(400, "Order not completed yet")) else None
  }

  /** `checkOutRoom`: the room becomes free and drops its order. */
  method CheckOutRoom(db: Db, roomNumber: string) returns (resp: Response)
    requires db.Valid()
    modifies db
    ensures db.Valid()
    ensures CheckOutGuard(old(db.rooms), old(db.orders), roomNumber).Some? ==>
              resp == CheckOutGuard(old(db.rooms), old(db.orders), roomNumber).value
              && db.Snapshot() == old(db.Snapshot())
    ensures CheckOutGuard(old(db.rooms), old(db.orders), roomNumber).None? ==>
              var k := RoomByNumber(old(db.rooms), roomNumber).value;
              && resp == Response(200, "Room checked out successfully")
              && db.rooms == old(db.rooms)[k := old(db.rooms)[k].(isBooked := false, currentOrderId := None)]
              && db.Snapshot() == old(db.Snapshot()).(rooms := db.rooms)
  {
    var g := CheckOutGuard(db.rooms, db.orders, roomNumber);
    if g.Some? {
      return g.value;
    }
    var k := RoomByNumber(db.rooms, roomNumber).value;
    db.rooms := db.rooms[k := db.rooms[k].(isBooked := false, currentOrderId := None)];
    return Response(200, "Room checked out successfully");
  }

  /** A room booked by a customer (booked, but with no current order) can never be
      checked out, whatever the orders are. */
  lemma BookedWithoutOrderNeverChecksOut(rooms: seq<Room>, orders: seq<Order>, roomNumber: string)
    requires RoomByNumber(rooms, roomNumber).Some?
    requires rooms[RoomByNumber(rooms, roomNumber).value].currentOrderId.None?
    ensures CheckOutGuard(rooms, orders, roomNumber).Some?
  {
  }

  /** The document placeRoomOrder hands to `new Order(...)`: only items, payment method
      and status are schema paths (totalAmount and roomNumber are dropped), so it has
      neither a subtotal nor, under the default dine-in type, a table number. */
  function RoomOrderFields(items: Option<seq<ItemFields>>, paymentMethod: Option<string>): OrderFields
  {
    OrderFields(None, items.GetOr([]), None, None, None, None, None, paymentMethod, None, Some("pending"), None)
  }

  /** The room food order never passes the order schema. */
  lemma RoomOrderNeverSaves(id: Id, items: Option<seq<ItemFields>>, paymentMethod: Option<string>)
    ensures SaveNew(id, RoomOrderFields(items, paymentMethod)).None?
    ensures Construct(id, RoomOrderFields(items, paymentMethod)).Some? ==>
              var o := Construct(id, RoomOrderFields(items, paymentMethod)).value;
              o.subtotal.None? && o.orderType == DineIn && o.tableNumber.None?
  {
  }

  /** `placeRoomOrder`: a missing or free room is refused; for a booked room the order
      fails validation, so the handler answers 500 and nothing is stored. */
  method PlaceRoomOrder(db: Db, roomNumber: string, items: Option<seq<ItemFields>>, paymentMethod: Option<string>)
    returns (resp: Response)
    requires db.Valid()
    modifies db
    ensures db.Valid()
    ensures db.Snapshot() == old(db.Snapshot())
    ensures RoomByNumber(old(db.rooms), roomNumber).None? ==> resp == Response(400, "Room is not booked")
    ensures RoomByNumber(old(db.rooms), roomNumber).Some? ==>
              resp == if old(db.rooms)[RoomByNumber(old(db.rooms), roomNumber).value].isBooked
                      then Response(500, "Internal server error")
                      else Response(400, "Room is not booked")
  {
    var k := RoomByNumber(db.rooms, roomNumber);
    if k.None? || !db.rooms[k.value].isBooked {
      return Response(400, "Room is not booked");
    }
    var saved := SaveNew(db.nextId, RoomOrderFields(items, paymentMethod));
    RoomOrderNeverSaves(db.nextId, items, paymentMethod);
    assert saved.None?;
    return Response(500, "Internal server error");
  }

  /** deleteRoom's guards: the room must exist and be free. */
  function DeleteRoomGuard(rooms: seq<Room>, roomId: Id): (r: Option<Response>)
    ensures RoomById(rooms, roomId).None? ==> r == Some(Response(404, "Room not found"))
    ensures RoomById(rooms, roomId).Some? ==> (r.None? <==> !rooms[RoomById(rooms, roomId).value].isBooked)
    ensures RoomById(rooms, roomId).Some? && r.Some? ==> r == Some(Response(400, "Cannot delete a booked room"))
  {
    match RoomById(rooms, roomId)
    case None => Some(Response(404, "Room not found"))
    case Some(k) => if rooms[k].isBooked then Some(Response(400, "Cannot delete a booked room")) else None
  }

  /** `deleteRoom`: a free room is removed; the others keep their order. */
  method DeleteRoom(db: Db, roomId: Id) returns (resp: Response)
    requires db.Valid()
    modifies db
    ensures db.Valid()
    ensures DeleteRoomGuard(old(db.rooms), roomId).Some? ==>
              resp == DeleteRoomGuard(old(db.rooms), roomId).value && db.Snapshot() == old(db.Snapshot())
    ensures DeleteRoomGuard(old(db.rooms), roomId).None? ==>
              && resp == Response(200, "Room deleted successfully")
              && db.rooms == RemoveAt(old(db.rooms), RoomById(old(db.rooms), roomId).value)
              && db.Snapshot() == old(db.Snapshot()).(rooms := db.rooms)
  {
    var g := DeleteRoomGuard(db.rooms, roomId);
    if g.Some? {
      return g.value;
    }
    db.rooms := RemoveAt(db.rooms, RoomById(db.rooms, roomId).value);
    return Response(200, "Room deleted successfully");
  }

  predicate HasPhoto(photos: seq<Photo>, publicId: string)
  {
    exists i :: 0 <= i < |photos| && photos[i].publicId == publicId
  }

  function OtherPhoto(publicId: string): Photo -> bool
  {
    (ph: Photo) => ph.publicId != publicId
  }

  /** The photos without any whose public id is `publicId`, the rest in their order. */
  function WithoutPhoto(photos: seq<Photo>, publicId: string): (r: seq<Photo>)
    ensures forall i :: 0 <= i < |r| ==> r[i] in photos && r[i].publicId != publicId
    ensures forall i :: 0 <= i < |photos| && photos[i].publicId != publicId ==> photos[i] in r
    ensures HasPhoto(photos, publicId) ==> |r| < |photos|
    ensures !HasPhoto(photos, publicId) ==> r == photos
  {
    FilterByIndex(photos, OtherPhoto(publicId));
    if HasPhoto(photos, publicId) then
      var k :| 0 <= k < |photos| && photos[k].publicId == publicId;
      FilterShorter(photos, OtherPhoto(publicId), k);
      Filter(photos, OtherPhoto(publicId))
    else
      FilterAll(photos, OtherPhoto(publicId));
      Filter(photos, OtherPhoto(publicId))
  }

  /** The photos that stay keep their order and multiplicity. */
  lemma WithoutPhotoKeepsOrder(photos: seq<Photo>, publicId: string)
    ensures SelectedAt(WithoutPhoto(photos, publicId), photos, OtherPhoto(publicId),
                       KeptPositions(photos, OtherPhoto(publicId)))
  {
    FilterSelects(photos, OtherPhoto(publicId));
  }

  /** deleteRoomPhoto's guards, in source order. */
  function DeletePhotoGuard(rooms: seq<Room>, roomId: Id, publicId: Option<string>): (r: Option<Response>)
    ensures !Truthy(publicId) ==> r == Some(Response(400, "public_id is required to delete the photo"))
    ensures Truthy(publicId) && RoomById(rooms, roomId).None? ==> r == Some(Response(404, "Room not found"))
    ensures Truthy(publicId) && RoomById(rooms, roomId).Some? ==>
              var rm := rooms[RoomById(rooms, roomId).value];
              && (r.None? <==> HasPhoto(rm.photos, publicId.value))
              && (r.Some? ==> r == Some(Response(404, "Photo not found in this room")))
  {
    if !Truthy(publicId) then Some(Response(400, "public_id is required to delete the photo"))
    else match RoomById(rooms, roomId)
      case None => Some(Response(404, "Room not found"))
      case Some(k) =>
        if HasPhoto(rooms[k].photos, publicId.value) then None
        else Some(Response(404, "Photo not found in this room"))
  }

  /** `deleteRoomPhoto`: every photo of the room with that public id is removed. */
  method DeleteRoomPhoto(db: Db, roomId: Id, publicId: Option<string>) returns (resp: Response)
    requires db.Valid()
    modifies db
    ensures db.Valid()
    ensures DeletePhotoGuard(old(db.rooms), roomId, publicId).Some? ==>
              resp == DeletePhotoGuard(old(db.rooms), roomId, publicId).value
              && db.Snapshot() == old(db.Snapshot())
    ensures DeletePhotoGuard(old(db.rooms), roomId, publicId).None? ==>
              var k := RoomById(old(db.rooms), roomId).value;
              && resp == Response(200, "Photo deleted successfully")
              && db.rooms == old(db.rooms)[k := old(db.rooms)[k].(photos := WithoutPhoto(old(db.rooms)[k].photos,
                                                                                          publicId.value))]
              && db.Snapshot() == old(db.Snapshot()).(rooms := db.rooms)
  {
    var g := DeletePhotoGuard(db.rooms, roomId, publicId);
    if g.Some? {
      return g.value;
    }
    var k := RoomById(db.rooms, roomId).value;
    db.rooms := db.rooms[k := db.rooms[k].(photos := WithoutPhoto(db.rooms[k].photos, publicId.value))];
    return Response(200, "Photo deleted successfully");
  }
}
