/** The Room record: the room-type, amenity and bed-type enumerations, price and
    capacity bounds, the two independent flags, the defaults applied when a room
    is constructed, and the unique (hotelId, roomNumber) index. */
module RoomModel {
  import opened Common
  import opened JsText

  const RoomTypes: set<string> := {"Single", "Double", "Twin", "Suite", "Deluxe", "Presidential"}
  const RoomAmenities: set<string> :=
    {"AC", "TV", "WiFi", "Mini Bar", "Safe", "Balcony", "Sea View", "City View", "Jacuzzi", "Kitchenette"}
  const BedTypes: set<string> := {"Single", "Double", "Queen", "King", "Twin Beds"}
  const MaxRoomDescription: int := 500

  datatype Capacity = Capacity(adults: int, children: int)

  /** A stored room. `isAvailable` (bookable at all) and `isActive` (not soft-deleted)
      are independent flags. */
  datatype Room = Room(
    hotelId: Id,
    roomNumber: string,
    roomType: string,
    pricePerNight: real,
    capacity: Capacity,
    amenities: seq<string>,
    description: Option<string>,
    size: Option<real>,
    bedType: Option<string>,
    isAvailable: bool,
    isActive: bool)

  /** The body handed to `new Room(...)`: every field may be missing. */
  datatype RoomInput = RoomInput(
    hotelId: Id,
    roomNumber: Option<string>,
    roomType: Option<string>,
    pricePerNight: Option<real>,
    adults: Option<int>,
    children: Option<int>,
    amenities: seq<string>,
    description: Option<string>,
    size: Option<real>,
    bedType: Option<string>,
    isAvailable: Option<bool>,
    isActive: Option<bool>)

  /** The schema validators: required fields, the enumerations, non-negative price,
      size and child capacity, at least one adult, and a description of at most 500
      characters. */
  predicate RoomValid(r: Room) {
    && r.hotelId != ""
    && r.roomNumber != ""
    && r.roomType in RoomTypes
    && r.pricePerNight >= 0.0
    && r.capacity.adults >= 1
    && r.capacity.children >= 0
    && (forall i :: 0 <= i < |r.amenities| ==> r.amenities[i] in RoomAmenities)
    && (r.description.Some? ==> |r.description.value| <= MaxRoomDescription)
    && (r.size.Some? ==> r.size.value >= 0.0)
    && (r.bedType.Some? ==> r.bedType.value in BedTypes)
  }

  /** The required paths are present (an empty string does not satisfy `required`). */
  predicate HasRequired(inp: RoomInput) {
    && inp.roomNumber.Some? && Trim(inp.roomNumber.value) != ""
    && inp.roomType.Some? && inp.pricePerNight.Some? && inp.adults.Some?
  }

  /** The document `new Room(inp)` builds: the room number trimmed, no children meaning
      0, both flags defaulting to true. */
  function FromInput(inp: RoomInput): (r: Room)
    requires HasRequired(inp)
    ensures r.hotelId == inp.hotelId && r.roomNumber == Trim(inp.roomNumber.value)
    ensures r.roomType == inp.roomType.value && r.pricePerNight == inp.pricePerNight.value
    ensures r.capacity == Capacity(inp.adults.value, inp.children.GetOr(0))
    ensures r.isAvailable == inp.isAvailable.GetOr(true) && r.isActive == inp.isActive.GetOr(true)
  {
    Room(inp.hotelId, Trim(inp.roomNumber.value), inp.roomType.value, inp.pricePerNight.value,
         Capacity(inp.adults.value, inp.children.GetOr(0)), inp.amenities, inp.description, inp.size,
         inp.bedType, inp.isAvailable.GetOr(true), inp.isActive.GetOr(true))
  }

  const RoomValidationFailed: string := "Room validation failed"

  /** `new Room(inp)` followed by the validation step of `save()`. */
  function BuildRoom(inp: RoomInput): (r: Result<Room>)
    ensures r.Ok? <==> HasRequired(inp) && RoomValid(FromInput(inp))
    ensures r.Ok? ==> r.value == FromInput(inp)
    ensures r.Err? ==> r.error == RoomValidationFailed
  {
    if HasRequired(inp) && RoomValid(FromInput(inp)) then Ok(FromInput(inp)) else Err(RoomValidationFailed)
  }

  /** A room built from a body that leaves out `isAvailable`, `isActive` and
      `capacity.children` is available, active and takes no children; the two flags
      are set independently. */
  lemma BuildDefaults(inp: RoomInput)
    requires BuildRoom(inp).Ok?
    ensures inp.isAvailable.None? ==> BuildRoom(inp).value.isAvailable
    ensures inp.isActive.None? ==> BuildRoom(inp).value.isActive
    ensures inp.children.None? ==> BuildRoom(inp).value.capacity.children == 0
    ensures BuildRoom(inp.(isAvailable := Some(false))).Ok?
    ensures BuildRoom(inp.(isAvailable := Some(false))).value == BuildRoom(inp).value.(isAvailable := false)
  {
  }

  /** A room with no type, an unknown type or a negative price is never stored. */
  lemma BuildRejectsBadTypeOrPrice(inp: RoomInput)
    requires inp.roomType.None? || inp.roomType.value !in RoomTypes
             || (inp.pricePerNight.Some? && inp.pricePerNight.value < 0.0)
    ensures BuildRoom(inp) == Err(RoomValidationFailed)
  {
  }

  /** The unique index on (hotelId, roomNumber): it covers every stored room,
      soft-deleted ones included. */
  predicate UniqueRoomNumbers(rooms: map<Id, Room>) {
    forall a, b :: a in rooms && b in rooms && a != b ==>
      rooms[a].hotelId != rooms[b].hotelId || rooms[a].roomNumber != rooms[b].roomNumber
  }

  /** Whether a room with the same hotel and number is stored, active or not (the
      duplicate-key check of the index on insert). */
  predicate NumberTaken(rooms: map<Id, Room>, hotelId: Id, roomNumber: string) {
    exists id :: id in rooms && rooms[id].hotelId == hotelId && rooms[id].roomNumber == roomNumber
  }

  /** Inserting a room whose (hotel, number) pair is not taken keeps the index unique. */
  lemma InsertKeepsUnique(rooms: map<Id, Room>, id: Id, r: Room)
    requires UniqueRoomNumbers(rooms) && id !in rooms
    requires !NumberTaken(rooms, r.hotelId, r.roomNumber)
    ensures UniqueRoomNumbers(rooms[id := r])
  {
  }

  /** Changing anything but the hotel or the number of a stored room keeps the index unique. */
  lemma UpdateKeepsUnique(rooms: map<Id, Room>, id: Id, r: Room)
    requires UniqueRoomNumbers(rooms) && id in rooms
    requires r.hotelId == rooms[id].hotelId && r.roomNumber == rooms[id].roomNumber
    ensures UniqueRoomNumbers(rooms[id := r])
  {
  }
}
