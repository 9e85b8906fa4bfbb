/** The read side: the listings the GET handlers assemble from the room and
    booking lists. None of them changes either list. */
module Views {
  import opened Records
  import opened Seqs
  import opened RoomRegistry
  import opened BookingLedger

  /** A room together with its bookings. */
  datatype RoomListing = RoomListing(room: Room, bookings: seq<Booking>)

  /** One row of the customers listing. */
  datatype CustomerRow = CustomerRow(customerName: string, roomName: string, date: string,
                                     startTime: int, endTime: int)

  /** The answer to a per-customer lookup. */
  datatype CustomerSummary = CustomerSummary(customerName: string, bookingCount: int,
                                             bookings: seq<Booking>)

  function ForRoom(id: int): Booking -> bool
  {
    (b: Booking) => b.roomId == id
  }

  function ForCustomer(name: string): Booking -> bool
  {
    (b: Booking) => b.customerName == name
  }

  /** Booking ids strictly increase along `bs`. */
  ghost predicate InIdOrder(bs: seq<Booking>)
  {
    forall k, l :: 0 <= k < l < |bs| ==> bs[k].id < bs[l].id
  }

  /** In a ledger with sequential ids, id order is insertion order, and any
      filter of the ledger keeps it. */
  lemma FilterKeepsIdOrder(bookings: seq<Booking>, p: Booking -> bool)
    requires BookingIdsSequential(bookings)
    ensures InIdOrder(Filter(bookings, p))
  {
  }

  /** Every room, in order, each with exactly the bookings for its id. */
  function RoomsWithBookings(rooms: seq<Room>, bookings: seq<Booking>): (r: seq<RoomListing>)
    ensures |r| == |rooms|
    ensures forall i :: 0 <= i < |r| ==> r[i].room == rooms[i]
    ensures forall i, k :: 0 <= i < |r| && 0 <= k < |r[i].bookings| ==>
              r[i].bookings[k] in bookings && r[i].bookings[k].roomId == rooms[i].id
    ensures forall i, j :: 0 <= i < |r| && 0 <= j < |bookings| && bookings[j].roomId == rooms[i].id ==>
              bookings[j] in r[i].bookings
  {
    seq(|rooms|, i requires 0 <= i < |rooms| => RoomListing(rooms[i], Filter(bookings, ForRoom(rooms[i].id))))
  }

  /** In a ledger with sequential ids, each room's list is in insertion order. */
  lemma RoomListingsInInsertionOrder(rooms: seq<Room>, bookings: seq<Booking>)
    requires BookingIdsSequential(bookings)
    ensures forall i :: 0 <= i < |rooms| ==> InIdOrder(RoomsWithBookings(rooms, bookings)[i].bookings)
  {
    var r := RoomsWithBookings(rooms, bookings);
    forall i | 0 <= i < |rooms| ensures InIdOrder(r[i].bookings) {
      FilterKeepsIdOrder(bookings, ForRoom(rooms[i].id));
    }
  }

  function RowFor(rooms: seq<Room>, b: Booking): CustomerRow
  {
    var room := FindRoom(rooms, b.roomId);
    CustomerRow(b.customerName, if room.Some? then room.value.name else UnknownRoom,
                b.date, b.startTime, b.endTime)
  }

  /** One row per booking, in order, with the name of the first room carrying
      the booking's room id, or "Unknown Room" when there is none. */
  function CustomersView(rooms: seq<Room>, bookings: seq<Booking>): (r: seq<CustomerRow>)
    ensures |r| == |bookings|
    ensures forall i :: 0 <= i < |r| ==>
              && r[i].customerName == bookings[i].customerName
              && r[i].date == bookings[i].date
              && r[i].startTime == bookings[i].startTime
              && r[i].endTime == bookings[i].endTime
    ensures forall i :: 0 <= i < |r| && !RoomExists(rooms, bookings[i].roomId) ==> r[i].roomName == UnknownRoom
    ensures forall i, k :: 0 <= i < |r| && FirstWithId(rooms, bookings[i].roomId, k) ==>
              r[i].roomName == rooms[k].name
  {
    seq(|bookings|, i requires 0 <= i < |bookings| => RowFor(rooms, bookings[i]))
  }

  /** In a consistent store the fallback name never appears: each row carries
      the name of the room at position `roomId - 1`. */
  lemma CustomersViewNamesRealRooms(rooms: seq<Room>, bookings: seq<Booking>)
    requires RoomIdsSequential(rooms) && BookingsReferenceRooms(rooms, bookings)
    ensures forall i :: 0 <= i < |bookings| ==>
              1 <= bookings[i].roomId <= |rooms| &&
              CustomersView(rooms, bookings)[i].roomName == rooms[bookings[i].roomId - 1].name
  {
  }

  /** The bookings of one customer (exact, case-sensitive name match), or
      NotFound when there are none. */
  function CustomerBookings(bookings: seq<Booking>, name: string): (r: Result<CustomerSummary>)
    ensures r.Err? <==> forall j :: 0 <= j < |bookings| ==> bookings[j].customerName != name
    ensures r.Err? ==> r == Err(NotFound, NoCustomerBookings)
    ensures r.Ok? ==> r.value.customerName == name
    ensures r.Ok? ==> r.value.bookingCount == |r.value.bookings|
                      == |set j | 0 <= j < |bookings| && bookings[j].customerName == name|
    ensures r.Ok? ==> forall k :: 0 <= k < |r.value.bookings| ==>
                        r.value.bookings[k] in bookings && r.value.bookings[k].customerName == name
    ensures r.Ok? ==> forall j :: 0 <= j < |bookings| && bookings[j].customerName == name ==>
                        bookings[j] in r.value.bookings
  {
    var p := ForCustomer(name);
    var matches := Filter(bookings, p);
    FilterEmpty(bookings, p);
    FilterLength(bookings, p);
    assert MatchSet(bookings, p) == set j | 0 <= j < |bookings| && bookings[j].customerName == name;
    if |matches| == 0 then Err(NotFound, NoCustomerBookings)
    else Ok(CustomerSummary(name, |matches|, matches))
  }

  /** In a ledger with sequential ids, a customer's bookings come in insertion order. */
  lemma CustomerBookingsInInsertionOrder(bookings: seq<Booking>, name: string)
    requires BookingIdsSequential(bookings)
    requires CustomerBookings(bookings, name).Ok?
    ensures InIdOrder(CustomerBookings(bookings, name).value.bookings)
  {
    FilterKeepsIdOrder(bookings, ForCustomer(name));
  }
}
