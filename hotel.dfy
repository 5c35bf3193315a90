/**
 * Hotel rooms, whose status changes on check-in and check-out, and the room
 * catalogue's search for available rooms of a style.
 */
module HotelManagement {

  /** Room styles are only compared for equality, so a style is its name. */
  type RoomStyle = string

  /** The two statuses the rooms move between, and any other status by name. */
  datatype RoomStatus = Available | Occupied | OtherStatus(name: string)

  class Room {
    const roomNumber: string
    const style: RoomStyle
    var status: RoomStatus
    /** The nightly price, in cents. */
    const bookingPrice: int
    const isSmoking: bool

    constructor (roomNumber: string, style: RoomStyle, status: RoomStatus, bookingPrice: int, isSmoking: bool)
      ensures this.roomNumber == roomNumber && this.style == style && this.status == status
      ensures this.bookingPrice == bookingPrice && this.isSmoking == isSmoking
    {
      this.roomNumber, this.style, this.status := roomNumber, style, status;
      this.bookingPrice, this.isSmoking := bookingPrice, isSmoking;
    }

    predicate IsRoomAvailable()
      reads this
    {
      status == Available
    }

    /** Occupies the room, whatever its status was. */
    method Checkin() returns (ok: bool)
      modifies this
      ensures ok && status == Occupied && !IsRoomAvailable()
    {
      status := Occupied;
      return true;
    }

    /** Makes the room available, whatever its status was. */
    method Checkout() returns (ok: bool)
      modifies this
      ensures ok && status == Available && IsRoomAvailable()
    {
      status := Available;
      return true;
    }
  }

  predicate Matches(room: Room, style: RoomStyle)
    reads room
  {
    room.IsRoomAvailable() && room.style == style
  }

  /** The available rooms of `style`, in list order. */
  function AvailableOfStyle(rooms: seq<Room>, style: RoomStyle): seq<Room>
    reads set r | r in rooms
  {
    if rooms == [] then []
    else
      var last := rooms[|rooms| - 1];
      AvailableOfStyle(rooms[..|rooms| - 1], style) + (if Matches(last, style) then [last] else [])
  }

  /** A room is returned exactly when it is in the list, available and of the style. */
  lemma {:induction false} AvailableOfStyleMeaning(rooms: seq<Room>, style: RoomStyle)
    ensures forall r :: r in AvailableOfStyle(rooms, style) <==> r in rooms && Matches(r, style)
  {
    if rooms != [] {
      var init := rooms[..|rooms| - 1];
      AvailableOfStyleMeaning(init, style);
      assert rooms == init + [rooms[|rooms| - 1]];
    }
  }

  /**
   * The result keeps the rooms' order: it picks the rooms at strictly
   * increasing positions of the list.
   */
  lemma {:induction false} AvailableOfStyleIsSubsequence(rooms: seq<Room>, style: RoomStyle) returns (positions: seq<int>)
    ensures |positions| == |AvailableOfStyle(rooms, style)|
    ensures forall k :: 0 <= k < |positions| ==> 0 <= positions[k] < |rooms| && rooms[positions[k]] == AvailableOfStyle(rooms, style)[k]
    ensures forall j, k :: 0 <= j < k < |positions| ==> positions[j] < positions[k]
  {
    if rooms == [] {
      positions := [];
    } else {
      var n := |rooms| - 1;
      var init := rooms[..n];
      positions := AvailableOfStyleIsSubsequence(init, style);
      if Matches(rooms[n], style) {
        positions := positions + [n];
      }
    }
  }

  class Catalog {
    var rooms: seq<Room>

    constructor ()
      ensures rooms == []
    {
      rooms := [];
    }

    /** The available rooms of the style; the date and the duration play no part. */
    method Search(style: RoomStyle, date: int, duration: int) returns (availableRooms: seq<Room>)
      ensures availableRooms == AvailableOfStyle(rooms, style)
      ensures forall r :: r in availableRooms <==> r in rooms && r.IsRoomAvailable() && r.style == style
    {
      availableRooms := [];
      for i := 0 to |rooms|
        invariant availableRooms == AvailableOfStyle(rooms[..i], style)
      {
        assert rooms[..i + 1][..i] == rooms[..i];
        if rooms[i].IsRoomAvailable() && rooms[i].style == style {
          availableRooms := availableRooms + [rooms[i]];
        }
      }
      assert rooms[..|rooms|] == rooms;
      AvailableOfStyleMeaning(rooms, style);
    }
  }
}
