/** The service state: the append-only room and booking lists, and the two
    create handlers, which validate, check and then append. */
module BookingService {
  import opened Records
  import opened RoomRegistry
  import opened BookingLedger

  /** What every reachable state satisfies. */
  ghost predicate StoreInvariant(rooms: seq<Room>, bookings: seq<Booking>)
  {
    && RoomIdsSequential(rooms)
    && BookingIdsSequential(bookings)
    && BookingsReferenceRooms(rooms, bookings)
    && NoAdmittedConflict(bookings)
  }

  /** Appending a room numbered one past the end keeps the invariant: no room is
      removed, so every booking still names a room. */
  lemma RoomAppendKeepsInvariant(rooms: seq<Room>, bookings: seq<Booking>, room: Room)
    requires StoreInvariant(rooms, bookings)
    requires room.id == |rooms| + 1
    ensures StoreInvariant(rooms + [room], bookings)
  {
    var grown := rooms + [room];
    forall i | 0 <= i < |bookings| ensures RoomExists(grown, bookings[i].roomId) {
      var k :| 0 <= k < |rooms| && rooms[k].id == bookings[i].roomId;
      assert grown[k] == rooms[k];
    }
  }

  /** Appending a booking numbered one past the end, for an existing room, that
      the conflict scan let through keeps the invariant. */
  lemma BookingAppendKeepsInvariant(rooms: seq<Room>, bookings: seq<Booking>, b: Booking)
    requires StoreInvariant(rooms, bookings)
    requires b.id == |bookings| + 1
    requires RoomExists(rooms, b.roomId)
    requires !IsBooked(bookings, SlotOf(b))
    ensures StoreInvariant(rooms, bookings + [b])
  {
  }

  class Store {
    var rooms: seq<Room>
    var bookings: seq<Booking>

    ghost predicate Valid()
      reads this
    {
      StoreInvariant(rooms, bookings)
    }

    constructor ()
      ensures Valid()
      ensures rooms == [] && bookings == []
    {
      rooms := [];
      bookings := [];
    }

    /** POST /rooms: refuse a request with a falsy field; otherwise append a
        room numbered one past the current count. */
    method CreateRoom(req: RoomRequest) returns (r: Result<Room>)
      requires Valid()
      modifies this
      ensures Valid()
      ensures bookings == old(bookings)
      ensures r.Ok? <==> ValidRoomRequest(req)
      ensures r.Err? ==> r == Err(Validation, RoomFieldsRequired) && rooms == old(rooms)
      ensures r.Ok? ==>
                && r.value == Room(|old(rooms)| + 1, req.name.value, req.seats.value,
                                   req.amenities.value, req.price.value)
                && rooms == old(rooms) + [r.value]
    {
      if !ValidRoomRequest(req) {
        return Err(Validation, RoomFieldsRequired);
      }
      var room := Room(|rooms| + 1, req.name.value, req.seats.value, req.amenities.value, req.price.value);
      RoomAppendKeepsInvariant(rooms, bookings, room);
      rooms := rooms + [room];
      r := Ok(room);
    }

    /** POST /bookings: refuse a request with a falsy field, then one naming no
        room, then one the conflict scan catches; otherwise append a booking
        numbered one past the current count. */
    method CreateBooking(req: BookingRequest) returns (r: Result<Booking>)
      requires Valid()
      modifies this
      ensures Valid()
      ensures rooms == old(rooms)
      ensures !ValidBookingRequest(req) ==> r == Err(Validation, BookingFieldsRequired)
      ensures ValidBookingRequest(req) && !RoomExists(rooms, req.roomId.value) ==>
                r == Err(NotFound, RoomNotFound)
      ensures ValidBookingRequest(req) && RoomExists(rooms, req.roomId.value)
              && IsBooked(old(bookings), RequestedSlot(req)) ==>
                r == Err(Conflict, AlreadyBooked)
      ensures ValidBookingRequest(req) && RoomExists(rooms, req.roomId.value)
              && !IsBooked(old(bookings), RequestedSlot(req)) ==>
                r.Ok?
      ensures r.Err? ==> bookings == old(bookings)
      ensures r.Ok? ==>
                && ValidBookingRequest(req)
                && r.value == Booking(|old(bookings)| + 1, req.customerName.value, req.date.value,
                                      req.startTime.value, req.endTime.value, req.roomId.value)
                && bookings == old(bookings) + [r.value]
    {
      if !ValidBookingRequest(req) {
        return Err(Validation, BookingFieldsRequired);
      }
      var room := FindRoom(rooms, req.roomId.value);
      if room.None? {
        return Err(NotFound, RoomNotFound);
      }
      var slot := RequestedSlot(req);
      if IsBooked(bookings, slot) {
        return Err(Conflict, AlreadyBooked);
      }
      var booking := NewBooking(|bookings| + 1, req);
      BookingAppendKeepsInvariant(rooms, bookings, booking);
      bookings := bookings + [booking];
      r := Ok(booking);
    }
  }
}
