/** The booking ledger: what a create-booking request must carry, the
    conflict test against existing bookings, and the invariants the ledger keeps. */
module BookingLedger {
  import opened Records
  import opened RoomRegistry

  /** A create-booking request passes validation when every field is truthy. */
  predicate ValidBookingRequest(req: BookingRequest)
  {
    && TruthyString(req.customerName)
    && TruthyString(req.date)
    && TruthyInt(req.startTime)
    && TruthyInt(req.endTime)
    && TruthyInt(req.roomId)
  }

  /** A requested room, date and time range. */
  datatype Slot = Slot(roomId: int, date: string, startTime: int, endTime: int)

  function RequestedSlot(req: BookingRequest): Slot
    requires ValidBookingRequest(req)
  {
    Slot(req.roomId.value, req.date.value, req.startTime.value, req.endTime.value)
  }

  function SlotOf(b: Booking): Slot
  {
    Slot(b.roomId, b.date, b.startTime, b.endTime)
  }

  /** The ledger's conflict test between an existing booking `b` and a requested
      slot: same room, same date, and the requested start lies in
      [b.startTime, b.endTime) or the requested end lies in (b.startTime, b.endTime].
      A requested slot that strictly contains `b` is not caught. */
  predicate Conflicts(b: Booking, s: Slot)
  {
    && b.roomId == s.roomId
    && b.date == s.date
    && ((s.startTime >= b.startTime && s.startTime < b.endTime)
        || (s.endTime > b.startTime && s.endTime <= b.endTime))
  }

  /** Some existing booking conflicts with the slot (`Array.prototype.some`). */
  predicate IsBooked(bookings: seq<Booking>, s: Slot)
  {
    exists i :: 0 <= i < |bookings| && Conflicts(bookings[i], s)
  }

  /** The half-open ranges [s.startTime, s.endTime) and [b.startTime, b.endTime)
      share an instant, on the same room and date. */
  predicate Intersects(b: Booking, s: Slot)
  {
    b.roomId == s.roomId && b.date == s.date && s.startTime < b.endTime && b.startTime < s.endTime
  }

  predicate StrictlyContains(s: Slot, b: Booking)
  {
    s.startTime < b.startTime && b.endTime < s.endTime
  }

  predicate WellFormedRange(startTime: int, endTime: int) { startTime < endTime }

  /** For non-empty ranges, the ledger's test is interval intersection minus
      exactly one case: the requested slot strictly containing the booking. */
  lemma ConflictIsIntersectionExceptContainment(b: Booking, s: Slot)
    requires WellFormedRange(b.startTime, b.endTime) && WellFormedRange(s.startTime, s.endTime)
    ensures Conflicts(b, s) <==> Intersects(b, s) && !StrictlyContains(s, b)
  {
  }

  /** A slot that starts where the booking ends, or ends where it starts, is accepted. */
  lemma AdjacentSlotsDoNotConflict(b: Booking, s: Slot)
    requires WellFormedRange(s.startTime, s.endTime)
    requires s.startTime == b.endTime || s.endTime == b.startTime
    ensures !Conflicts(b, s)
  {
  }

  /** A slot that strictly contains the booking is accepted (the test's known gap). */
  lemma ContainingSlotNotDetected(b: Booking, s: Slot)
    requires StrictlyContains(s, b)
    ensures !Conflicts(b, s)
  {
  }

  /** Another room or another date never conflicts. */
  lemma OtherRoomOrDateNeverConflicts(b: Booking, s: Slot)
    requires b.roomId != s.roomId || b.date != s.date
    ensures !Conflicts(b, s)
  {
  }

  /** A fresh booking built from a valid request, with the given id. */
  function NewBooking(id: int, req: BookingRequest): Booking
    requires ValidBookingRequest(req)
  {
    Booking(id, req.customerName.value, req.date.value, req.startTime.value, req.endTime.value, req.roomId.value)
  }

  /** Booking ids are the positions 1, 2, 3, ... of the booking list. */
  ghost predicate BookingIdsSequential(bookings: seq<Booking>)
  {
    forall i :: 0 <= i < |bookings| ==> bookings[i].id == i + 1
  }

  /** Every booking names a room of the registry. */
  ghost predicate BookingsReferenceRooms(rooms: seq<Room>, bookings: seq<Booking>)
  {
    forall i :: 0 <= i < |bookings| ==> RoomExists(rooms, bookings[i].roomId)
  }

  /** What the conflict scan guarantees about the ledger: no booking conflicts,
      by the ledger's own test, with any booking admitted before it. */
  ghost predicate NoAdmittedConflict(bookings: seq<Booking>)
  {
    forall i, j :: 0 <= i < j < |bookings| ==> !Conflicts(bookings[i], SlotOf(bookings[j]))
  }

  /** Appending a booking that the scan let through keeps `NoAdmittedConflict`. */
  lemma AdmittedBookingKeepsNoConflict(bookings: seq<Booking>, b: Booking)
    requires NoAdmittedConflict(bookings)
    requires !IsBooked(bookings, SlotOf(b))
    ensures NoAdmittedConflict(bookings + [b])
  {
  }

  /** The strongest non-overlap the ledger keeps: when two well-formed bookings of
      the same room and date intersect, the later one strictly contains the earlier. */
  lemma IntersectingBookingsNest(bookings: seq<Booking>, i: int, j: int)
    requires NoAdmittedConflict(bookings)
    requires 0 <= i < j < |bookings|
    requires WellFormedRange(bookings[i].startTime, bookings[i].endTime)
    requires WellFormedRange(bookings[j].startTime, bookings[j].endTime)
    requires Intersects(bookings[i], SlotOf(bookings[j]))
    ensures StrictlyContains(SlotOf(bookings[j]), bookings[i])
  {
  }
}
