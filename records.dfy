/** The entities of the booking service, the request bodies the handlers read,
    the "truthy" test the handlers apply to each field, and the tagged outcome
    every operation returns. */
module Records {

  datatype Option<T> = None | Some(value: T)

  /** A room's amenities: the request may carry a list or a single string. */
  datatype Amenities = AmenityList(items: seq<string>) | AmenityText(text: string)

  /** A stored room. `id` is its 1-based position in the room list. */
  datatype Room = Room(id: int, name: string, seats: int, amenities: Amenities, price: real)

  /** A stored booking. Times are minutes of the day; `date` is an opaque key. */
  datatype Booking = Booking(id: int, customerName: string, date: string,
                             startTime: int, endTime: int, roomId: int)

  /** The fields a create-room request body may carry; `None` is an absent field. */
  datatype RoomRequest = RoomRequest(name: Option<string>, seats: Option<int>,
                                     amenities: Option<Amenities>, price: Option<real>)

  /** The fields a create-booking request body may carry; `None` is an absent field. */
  datatype BookingRequest = BookingRequest(customerName: Option<string>, date: Option<string>,
                                           startTime: Option<int>, endTime: Option<int>,
                                           roomId: Option<int>)

  // JavaScript truthiness, per field type: absent is falsy, and so are the
  // empty string and the number zero. Every array is truthy, even an empty one.

  predicate TruthyString(v: Option<string>) { v.Some? && v.value != "" }

  predicate TruthyInt(v: Option<int>) { v.Some? && v.value != 0 }

  predicate TruthyReal(v: Option<real>) { v.Some? && v.value != 0.0 }

  predicate TruthyAmenities(v: Option<Amenities>)
  {
    v.Some? && (v.value.AmenityText? ==> v.value.text != "")
  }

  /** The failure kinds; the transport maps them to 400, 404 and 400. */
  datatype ErrorKind = Validation | NotFound | Conflict

  datatype Result<T> = Ok(value: T) | Err(kind: ErrorKind, message: string)

  const RoomFieldsRequired := "All fields are required (name, seats, amenities, price)"
  const BookingFieldsRequired := "All fields are required (customerName, date, startTime, endTime, roomId)"
  const RoomNotFound := "Room not found"
  const AlreadyBooked := "Room is already booked for the given time slot"
  const NoCustomerBookings := "No bookings found for the customer"
  const UnknownRoom := "Unknown Room"
}
