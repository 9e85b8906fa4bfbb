# Meeting-room booking service: a Dafny model

This project models the core of a small meeting-room booking service. The
service keeps two append-only lists in memory, `rooms` and `bookings`. It
exposes five operations:

- create a room;
- book a room for a customer, a date and a time range;
- list every room with its bookings;
- list every booking with the name of its room;
- look up one customer's bookings.

The model has six modules:

- `Seqs` (`seqs.dfy`): the array `filter` the handlers use. It comes with lemmas
  saying that a filter keeps every match exactly once, in its original order,
  and that its length is the number of matches.
- `Records` (`records.dfy`): rooms, bookings, the request bodies and the
  per-field "truthy" test. Also the tagged outcome `Result`, with the error
  kinds `Validation`, `NotFound` and `Conflict`, and the exact message strings.
- `RoomRegistry` (`room_registry.dfy`): the create-room validation and the
  `find` of a room by id.
- `BookingLedger` (`booking_ledger.dfy`): the create-booking validation and the
  conflict test (`isBooked`), kept exactly as written. This includes its gap:
  a request that strictly contains an existing booking is not caught. The
  module also holds the invariants the ledger keeps.
- `Views` (`views.dfy`): the three read-side joins as functions over the two
  lists.
- `BookingService` (`booking_service.dfy`): the class `Store` holding both lists.
  Its methods `CreateRoom` and `CreateBooking` mirror the two POST handlers.
  They check in the handlers' order: validation, then room lookup, then
  conflict, then append. A failed call leaves both lists unchanged.

`scenarios.dfy` holds clients of `Store`. They walk through the documented
examples of a 10:00-11:00 booking, with all times in minutes:

- an overlapping request is refused;
- two adjacent requests are accepted;
- a containing request is accepted;
- a missing room gives NotFound;
- a falsy field gives a validation error;
- the customer lookup returns the right count.

Modelling choices:

- Times are integers, for minutes of the day. A time counts as truthy when it is
  non-zero, so a booking cannot start at minute 0 (midnight).
- Room ids and booking ids are integers, matched by exact equality.
- `price` is a real number and `seats` an integer. Each is truthy when non-zero.
- `amenities` is either a list or a string. A list is always truthy, even an
  empty one, as JavaScript arrays are. A string is truthy when non-empty.
- Ids come from the current list length plus one, as in `index.js:21` and
  `index.js:61`. The model does not use a separate counter. Since nothing is
  ever removed, the invariant `rooms[i].id == i + 1` holds, and the same for
  bookings.

The conflict test does not guarantee that same-room, same-date bookings never
overlap. A later booking may strictly contain an earlier one. What the ledger
does keep is `NoAdmittedConflict`: no booking conflicts, by the ledger's own
test, with any booking accepted before it. `IntersectingBookingsNest` proves
the consequence: when two well-formed bookings of one room and date intersect,
the later one strictly contains the earlier. `Scenarios.ContainmentIsAccepted`
reaches exactly such a state. The service's design states a stronger
invariant: no two bookings of one room and date have overlapping half-open
ranges. The code does not keep that invariant, and the model follows the code.
The containment gap is kept as written and is not corrected.

The read-side joins are functions of the two lists, so they change nothing,
and calling one twice on the same lists gives the same answer.

## Model

| member | source | states |
|---|---|---|
| `Seqs.Filter` | index.js:76 | the result is at most as long as the input; each element of the result is in the input and satisfies the predicate; each input element that satisfies it is in the result |
| `Seqs.FilterPicksMatchPositions` | index.js:106 | the k-th element of the filter is the input element at the k-th matching position |
| `Seqs.MatchPositionsExact` | index.js:106 | the matching positions are strictly increasing and are exactly the positions whose element satisfies the predicate, so a filter keeps every match once, in order |
| `Seqs.MatchPositionsBounded` | index.js:76 | every matching position is a valid position of the input |
| `Seqs.FilterLength` | index.js:114 | the filter's length equals the number of input positions that satisfy the predicate |
| `Seqs.FilterEmpty` | index.js:108 | the filter is empty exactly when no input element satisfies the predicate |
| `RoomRegistry.ZeroSeatsOrPriceRefused` | index.js:16-18 | a room request with zero seats or a zero price fails validation |
| `RoomRegistry.FindRoom` | index.js:42 | the lookup finds a room exactly when some room has the id; it returns the first room with that id |
| `RoomRegistry.FindRoomByPosition` | index.js:21 | with sequential ids the lookup returns `rooms[id - 1]` for ids 1 to the number of rooms, and nothing for any other id |
| `BookingLedger.ConflictIsIntersectionExceptContainment` | index.js:48-54 | for non-empty ranges, the conflict test holds exactly when the half-open ranges of one room and date intersect and the request does not strictly contain the booking |
| `BookingLedger.AdjacentSlotsDoNotConflict` | index.js:52-53 | a non-empty request that starts where a booking ends, or ends where it starts, does not conflict with it |
| `BookingLedger.ContainingSlotNotDetected` | index.js:52-53 | a request that strictly contains a booking does not conflict with it |
| `BookingLedger.OtherRoomOrDateNeverConflicts` | index.js:50-51 | a booking of another room or another date never conflicts |
| `BookingLedger.AdmittedBookingKeepsNoConflict` | index.js:48-69 | appending a booking the scan let through keeps "no booking conflicts with an earlier one" |
| `BookingLedger.IntersectingBookingsNest` | index.js:48-54 | under that invariant, if two well-formed bookings of one room and date intersect, the later one strictly contains the earlier |
| `Views.FilterKeepsIdOrder` | index.js:76 | with sequential booking ids, any filter of the bookings has strictly increasing ids, which is insertion order |
| `Views.RoomsWithBookings` | index.js:75-81 | one entry per room, in order, carrying that room; each entry's bookings are bookings of the ledger for that room's id; every such booking appears, so a room without bookings gets an empty list |
| `Views.RoomListingsInInsertionOrder` | index.js:76 | with sequential booking ids, each room's booking list is in insertion order |
| `Views.CustomersView` | index.js:88-97 | one row per booking, in order, copying the customer name, date, start and end; the room name is that of the first room with the booking's room id, or "Unknown Room" when no room has it |
| `Views.CustomersViewNamesRealRooms` | index.js:89-92 | with sequential room ids and every booking naming a room, each row names the room at position `roomId - 1`, so the fallback never appears |
| `Views.CustomerBookings` | index.js:106-116 | NotFound with its message exactly when no booking has that customer name; otherwise the echoed name, a count equal to the list length and to the number of matching bookings, and exactly the matching bookings |
| `Views.CustomerBookingsInInsertionOrder` | index.js:106 | with sequential booking ids, a customer's bookings come in insertion order |
| `BookingService.RoomAppendKeepsInvariant` | index.js:20-28 | appending a room numbered one past the end keeps sequential ids, every booking naming a room, and no admitted conflict |
| `BookingService.BookingAppendKeepsInvariant` | index.js:60-69 | appending a booking numbered one past the end, for an existing room, that the scan let through keeps the store invariant |
| `BookingService.Store.constructor` | index.js:8-9 | the store starts with both lists empty and satisfies its invariant |
| `BookingService.Store.CreateRoom` | index.js:12-30 | a validation error with its message exactly when a field is falsy, and then rooms unchanged; otherwise exactly one room is appended, with id one past the old count and the given fields; bookings never change; the invariant is kept |
| `BookingService.Store.CreateBooking` | index.js:33-71 | a validation error when a field is falsy, otherwise NotFound when no room has the id, otherwise Conflict when the scan finds a conflicting booking, otherwise success; every failure leaves bookings unchanged; success appends exactly one booking with id one past the old count and the given fields; rooms never change; the invariant is kept |

## Left out

- Express setup, the JSON middleware, `app.listen` and the start-up log (index.js:1-5, 119-122): framework plumbing and I/O.
- HTTP status codes and JSON (de)serialisation: each response is an abstract `Result` tag with the handler's message. The error kinds map to 400 (`Validation`), 404 (`NotFound`) and 400 (`Conflict`). The success messages "Room created successfully" and "Room booked successfully" are fixed strings and are not carried.
- Loose typing: request fields are modelled with one type each. So a `roomId` sent as a string, which JavaScript's `===` would never match against a numeric id, is not modelled. Neither are lexical comparison of time strings or comparisons across mixed types.
- Truthiness of values other than those types: `NaN`, objects, `false`, and amenities given as a number or an object.
- Properties of the request body other than the named fields: the handlers ignore them, and so does the model.
- Concurrency: requests are handled one at a time.
