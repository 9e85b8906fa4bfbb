/** Clients of the store that walk through the documented booking examples.
    Times are minutes of the day: 600 is 10:00, 660 is 11:00. */
module Scenarios {
  import opened Records
  import opened RoomRegistry
  import opened BookingLedger
  import opened Views
  import opened BookingService

  function Request(customer: string, date: string, startTime: int, endTime: int, roomId: int): BookingRequest
  {
    BookingRequest(Some(customer), Some(date), Some(startTime), Some(endTime), Some(roomId))
  }

  /** A store holding one room, "Board Room", with id 1. */
  method StoreWithOneRoom() returns (store: Store)
    ensures fresh(store) && store.Valid()
    ensures |store.rooms| == 1 && store.rooms[0].id == 1 && store.bookings == []
  {
    store := new Store();
    var zeroSeats := store.CreateRoom(RoomRequest(Some("Annex"), Some(0), Some(AmenityList([])), Some(80.0)));
    assert zeroSeats == Err(Validation, RoomFieldsRequired);
    var room := store.CreateRoom(RoomRequest(Some("Board Room"), Some(10), Some(AmenityList([])), Some(150.0)));
    assert room == Ok(Room(1, "Board Room", 10, AmenityList([]), 150.0));
  }

  /** Against 10:00-11:00: 10:30-11:30 is refused, 11:00-12:00 and 09:00-10:00 are accepted. */
  method OverlapAndAdjacency()
  {
    var store := StoreWithOneRoom();
    assert RoomExists(store.rooms, 1) by { assert store.rooms[0].id == 1; }
    var first := store.CreateBooking(Request("Alice", "2024-01-01", 600, 660, 1));
    assert first == Ok(Booking(1, "Alice", "2024-01-01", 600, 660, 1));
    var alice := store.bookings[0];

    var overlapping := store.CreateBooking(Request("Bob", "2024-01-01", 630, 690, 1));
    assert Conflicts(alice, Slot(1, "2024-01-01", 630, 690));
    assert overlapping == Err(Conflict, AlreadyBooked);

    var after := store.CreateBooking(Request("Bob", "2024-01-01", 660, 720, 1));
    assert after == Ok(Booking(2, "Bob", "2024-01-01", 660, 720, 1));

    var earlier := store.CreateBooking(Request("Carol", "2024-01-01", 540, 600, 1));
    assert earlier == Ok(Booking(3, "Carol", "2024-01-01", 540, 600, 1));
  }

  /** 09:00-12:00 strictly contains 10:00-11:00 and is accepted: the ledger then
      holds two intersecting bookings of the same room and date. */
  method ContainmentIsAccepted()
  {
    var store := StoreWithOneRoom();
    assert RoomExists(store.rooms, 1) by { assert store.rooms[0].id == 1; }
    var inner := store.CreateBooking(Request("Dave", "2024-01-02", 600, 660, 1));
    assert inner == Ok(Booking(1, "Dave", "2024-01-02", 600, 660, 1));
    var outer := store.CreateBooking(Request("Erin", "2024-01-02", 540, 720, 1));
    assert outer == Ok(Booking(2, "Erin", "2024-01-02", 540, 720, 1));
    assert Intersects(store.bookings[0], SlotOf(store.bookings[1]));
  }

  /** A missing room is NotFound; a falsy field is refused before the room is looked up. */
  method ErrorOrder()
  {
    var store := StoreWithOneRoom();
    var missing := store.CreateBooking(Request("Alice", "2024-01-01", 900, 960, 7));
    assert missing == Err(NotFound, RoomNotFound);
    var midnight := store.CreateBooking(Request("Alice", "2024-01-01", 0, 60, 7));
    assert midnight == Err(Validation, BookingFieldsRequired);
    assert store.bookings == [];
  }

  /** A customer with bookings gets their count; one without gets NotFound. */
  method CustomerLookup()
  {
    var store := StoreWithOneRoom();
    assert RoomExists(store.rooms, 1) by { assert store.rooms[0].id == 1; }
    var first := store.CreateBooking(Request("Bob", "2024-01-01", 600, 660, 1));
    assert first.Ok?;
    var lookup := CustomerBookings(store.bookings, "Bob");
    assert lookup.Ok? && lookup.value.bookingCount == 1;
    var nobody := CustomerBookings(store.bookings, "Zoe");
    assert nobody == Err(NotFound, NoCustomerBookings);
  }
}
