/** The room registry: what a create-room request must carry, the room it
    produces, and the lookup of a room by id. */
module RoomRegistry {
  import opened Records

  /** A create-room request passes validation when every field is truthy. */
  predicate ValidRoomRequest(req: RoomRequest)
  {
    TruthyString(req.name) && TruthyInt(req.seats) && TruthyAmenities(req.amenities) && TruthyReal(req.price)
  }

  /** A room with zero seats or a zero price is refused, as if the field were missing. */
  lemma ZeroSeatsOrPriceRefused(req: RoomRequest)
    requires req.seats == Some(0) || req.price == Some(0.0)
    ensures !ValidRoomRequest(req)
  {
  }

  /** Room ids are the positions 1, 2, 3, ... of the room list. */
  ghost predicate RoomIdsSequential(rooms: seq<Room>)
  {
    forall i :: 0 <= i < |rooms| ==> rooms[i].id == i + 1
  }

  ghost predicate RoomExists(rooms: seq<Room>, id: int)
  {
    exists k :: 0 <= k < |rooms| && rooms[k].id == id
  }

  /** `rooms[k]` is the first room whose id is `id`. */
  ghost predicate FirstWithId(rooms: seq<Room>, id: int, k: int)
  {
    0 <= k < |rooms| && rooms[k].id == id && forall k' :: 0 <= k' < k ==> rooms[k'].id != id
  }

  /** The first room whose id equals `id` exactly (`Array.prototype.find`), if any. */
  function FindRoom(rooms: seq<Room>, id: int): (r: Option<Room>)
    ensures r.Some? <==> RoomExists(rooms, id)
    ensures forall k :: FirstWithId(rooms, id, k) ==> r == Some(rooms[k])
  {
    if |rooms| == 0 then None
    else if rooms[0].id == id then Some(rooms[0])
    else
      var r := FindRoom(rooms[1..], id);
      assert RoomExists(rooms, id) ==> RoomExists(rooms[1..], id) by {
        if RoomExists(rooms, id) {
          var k :| 0 <= k < |rooms| && rooms[k].id == id;
          assert rooms[1..][k - 1].id == id;
        }
      }
      assert forall k :: FirstWithId(rooms, id, k) ==> FirstWithId(rooms[1..], id, k - 1);
      r
  }

  /** In a registry with sequential ids the lookup is by position, and finds
      exactly the ids 1 through the number of rooms. */
  lemma FindRoomByPosition(rooms: seq<Room>, id: int)
    requires RoomIdsSequential(rooms)
    ensures FindRoom(rooms, id) == if 1 <= id <= |rooms| then Some(rooms[id - 1]) else None
  {
  }
}
