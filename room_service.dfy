/** The room service: the availability check, the hotel price-range
    synchroniser and the room operations that keep a hotel's room list and price
    range up to date. */
module RoomService {
  import opened Common
  import opened Query
  import opened BookingModel
  import opened RoomModel
  import opened HotelModel
  import opened JsText
  import opened Store

  const RoomNotFound: string := "Room not found"
  const RoomNotAvailable: string := "Room is not available"
  const AlreadyBooked: string := "Room is already booked for the selected dates"
  const HotelNotFound: string := "Hotel not found"
  const DuplicateRoomNumber: string := "Room number already exists in this hotel"
  const RoomDeleted: string := "Room deleted successfully"

  // ---------------------------------------------------------------------------
  // Availability

  /** The overlap query's three alternatives: the booking covers the requested
      check-in, covers the requested check-out, or lies within the request. */
  predicate OverlapQuery(b: Booking, checkIn: int, checkOut: int) {
    || (b.checkIn <= checkIn && b.checkOut > checkIn)
    || (b.checkIn < checkOut && b.checkOut >= checkOut)
    || (b.checkIn >= checkIn && b.checkOut <= checkOut)
  }

  /** Two stays `[in1, out1)` and `[in2, out2)` share a night. */
  predicate HalfOpenOverlap(in1: int, out1: int, in2: int, out2: int) {
    in1 < out2 && in2 < out1
  }

  /** For well-formed stays the three-way query is exactly the half-open overlap test. */
  lemma OverlapQueryIsHalfOpen(b: Booking, checkIn: int, checkOut: int)
    requires b.checkIn < b.checkOut && checkIn < checkOut
    ensures OverlapQuery(b, checkIn, checkOut) <==> HalfOpenOverlap(b.checkIn, b.checkOut, checkIn, checkOut)
  {
  }

  /** A stay that ends on the day another starts does not conflict with it. */
  lemma TouchingStaysDoNotConflict(b: Booking, checkIn: int, checkOut: int)
    requires b.checkIn < b.checkOut && checkIn < checkOut
    requires b.checkOut == checkIn || checkOut == b.checkIn
    ensures !OverlapQuery(b, checkIn, checkOut)
  {
  }

  /** A booking counts against a request: same room, Confirmed, and caught by the query. */
  predicate CountsAgainst(b: Booking, roomId: Id, checkIn: int, checkOut: int) {
    b.roomId == roomId && b.bookingStatus == Confirmed && OverlapQuery(b, checkIn, checkOut)
  }

  function Conflicts(bookings: map<Id, Booking>, roomId: Id, checkIn: int, checkOut: int): set<Id> {
    set id | id in bookings && CountsAgainst(bookings[id], roomId, checkIn, checkOut)
  }

  datatype Availability = Available | Unavailable(reason: string, conflicting: Option<set<Id>>)

  predicate ActiveRoom(rooms: map<Id, Room>, roomId: Id) {
    roomId in rooms && rooms[roomId].isActive
  }

  /** `checkRoomAvailability`: a missing or soft-deleted room is an error; a room
      switched off is unavailable whatever its bookings; otherwise the room is
      available exactly when no Confirmed booking of it overlaps, and the
      overlapping ones are returned. The store is only read. */
  function CheckRoomAvailability(rooms: map<Id, Room>, bookings: map<Id, Booking>, roomId: Id,
                                 checkIn: int, checkOut: int): (r: Result<Availability>)
    ensures r.Err? <==> !ActiveRoom(rooms, roomId)
    ensures r.Err? ==> r.error == RoomNotFound
    ensures r.Ok? && !rooms[roomId].isAvailable ==> r.value == Unavailable(RoomNotAvailable, None)
    ensures r.Ok? && rooms[roomId].isAvailable ==>
              (r.value == Available <==> Conflicts(bookings, roomId, checkIn, checkOut) == {})
    ensures r.Ok? && r.value.Unavailable? && rooms[roomId].isAvailable ==>
              r.value == Unavailable(AlreadyBooked, Some(Conflicts(bookings, roomId, checkIn, checkOut)))
  {
    if !ActiveRoom(rooms, roomId) then Err(RoomNotFound)
    else if !rooms[roomId].isAvailable then Ok(Unavailable(RoomNotAvailable, None))
    else
      var c := Conflicts(bookings, roomId, checkIn, checkOut);
      if c == {} then Ok(Available) else Ok(Unavailable(AlreadyBooked, Some(c)))
  }

  /** An Available verdict for a well-formed request means no well-formed Confirmed
      booking of that room shares a night with it. */
  lemma {:induction false} AvailableMeansNoOverlap(rooms: map<Id, Room>, bookings: map<Id, Booking>, roomId: Id,
                                                   checkIn: int, checkOut: int)
    requires CheckRoomAvailability(rooms, bookings, roomId, checkIn, checkOut) == Ok(Available)
    requires checkIn < checkOut
    ensures ActiveRoom(rooms, roomId) && rooms[roomId].isAvailable
    ensures forall id :: id in bookings && bookings[id].roomId == roomId && bookings[id].bookingStatus == Confirmed
                         && bookings[id].checkIn < bookings[id].checkOut
                         ==> !HalfOpenOverlap(bookings[id].checkIn, bookings[id].checkOut, checkIn, checkOut)
  {
    forall id | id in bookings && bookings[id].roomId == roomId && bookings[id].bookingStatus == Confirmed
                && bookings[id].checkIn < bookings[id].checkOut
      ensures !HalfOpenOverlap(bookings[id].checkIn, bookings[id].checkOut, checkIn, checkOut)
    {
      assert id !in Conflicts(bookings, roomId, checkIn, checkOut);
      OverlapQueryIsHalfOpen(bookings[id], checkIn, checkOut);
    }
  }

  /** Conversely, an active, bookable room whose Confirmed bookings are all
      well-formed and none shares a night with the request is reported Available. */
  lemma {:induction false} NoOverlapMeansAvailable(rooms: map<Id, Room>, bookings: map<Id, Booking>, roomId: Id,
                                                   checkIn: int, checkOut: int)
    requires ActiveRoom(rooms, roomId) && rooms[roomId].isAvailable && checkIn < checkOut
    requires forall id :: id in bookings && bookings[id].roomId == roomId && bookings[id].bookingStatus == Confirmed
                          ==> bookings[id].checkIn < bookings[id].checkOut
                              && !HalfOpenOverlap(bookings[id].checkIn, bookings[id].checkOut, checkIn, checkOut)
    ensures CheckRoomAvailability(rooms, bookings, roomId, checkIn, checkOut) == Ok(Available)
  {
    forall id | id in bookings
      ensures !CountsAgainst(bookings[id], roomId, checkIn, checkOut)
    {
      if bookings[id].roomId == roomId && bookings[id].bookingStatus == Confirmed {
        OverlapQueryIsHalfOpen(bookings[id], checkIn, checkOut);
      }
    }
    assert Conflicts(bookings, roomId, checkIn, checkOut) == {};
  }

  // ---------------------------------------------------------------------------
  // Price range

  predicate ActiveRoomOf(rooms: map<Id, Room>, id: Id, hotelId: Id) {
    id in rooms && rooms[id].hotelId == hotelId && rooms[id].isActive
  }

  /** `rooms.map(room => room.pricePerNight)` over `Room.find({ hotelId, isActive: true })`,
      in the natural order `order` of the collection. */
  function ActivePrices(rooms: map<Id, Room>, order: seq<Id>, hotelId: Id): seq<real> {
    if order == [] then []
    else
      var rest := ActivePrices(rooms, order[..|order| - 1], hotelId);
      var id := order[|order| - 1];
      if ActiveRoomOf(rooms, id, hotelId) then rest + [rooms[id].pricePerNight] else rest
  }

  /** The prices listed are exactly those of the hotel's active rooms. */
  lemma {:induction false} ActivePricesMembers(rooms: map<Id, Room>, order: seq<Id>, hotelId: Id, p: real)
    ensures p in ActivePrices(rooms, order, hotelId) <==>
              exists id :: id in order && ActiveRoomOf(rooms, id, hotelId) && rooms[id].pricePerNight == p
  {
    if order != [] {
      var init := order[..|order| - 1];
      ActivePricesMembers(rooms, init, hotelId, p);
      assert order == init + [order[|order| - 1]];
      if p in ActivePrices(rooms, order, hotelId) && p !in ActivePrices(rooms, init, hotelId) {
        assert ActiveRoomOf(rooms, order[|order| - 1], hotelId);
      }
      if exists id :: id in order && ActiveRoomOf(rooms, id, hotelId) && rooms[id].pricePerNight == p {
        var id :| id in order && ActiveRoomOf(rooms, id, hotelId) && rooms[id].pricePerNight == p;
        if id != order[|order| - 1] {
          assert id in init;
        }
      }
    }
  }

  /** Two states that agree on which rooms of the hotel are active, and on their
      prices, give the same price list. */
  lemma {:induction false} ActivePricesFrame(rooms1: map<Id, Room>, rooms2: map<Id, Room>, order: seq<Id>, hotelId: Id)
    requires forall id :: id in order ==> (ActiveRoomOf(rooms1, id, hotelId) <==> ActiveRoomOf(rooms2, id, hotelId))
    requires forall id :: id in order && ActiveRoomOf(rooms1, id, hotelId) && ActiveRoomOf(rooms2, id, hotelId) ==>
                          rooms1[id].pricePerNight == rooms2[id].pricePerNight
    ensures ActivePrices(rooms1, order, hotelId) == ActivePrices(rooms2, order, hotelId)
  {
    if order != [] {
      ActivePricesFrame(rooms1, rooms2, order[..|order| - 1], hotelId);
    }
  }

  /** `Math.min(...prices)`. */
  function MinOf(ps: seq<real>): (m: real)
    requires |ps| >= 1
    ensures m in ps && forall i :: 0 <= i < |ps| ==> m <= ps[i]
  {
    if |ps| == 1 then ps[0]
    else
      var r := MinOf(ps[1..]);
      assert forall i :: 1 <= i < |ps| ==> ps[i] == ps[1..][i - 1];
      if ps[0] <= r then ps[0] else r
  }

  /** `Math.max(...prices)`. */
  function MaxOf(ps: seq<real>): (m: real)
    requires |ps| >= 1
    ensures m in ps && forall i :: 0 <= i < |ps| ==> ps[i] <= m
  {
    if |ps| == 1 then ps[0]
    else
      var r := MaxOf(ps[1..]);
      assert forall i :: 1 <= i < |ps| ==> ps[i] == ps[1..][i - 1];
      if ps[0] >= r then ps[0] else r
  }

  /** The range `updateHotelPriceRange` computes: (0, 0) with no active room,
      otherwise the lowest and highest active price. */
  function PriceRangeOf(rooms: map<Id, Room>, order: seq<Id>, hotelId: Id): (pr: PriceRange)
    ensures ActivePrices(rooms, order, hotelId) == [] ==> pr == PriceRange(0.0, 0.0)
    ensures pr.min <= pr.max
  {
    var ps := ActivePrices(rooms, order, hotelId);
    if ps == [] then PriceRange(0.0, 0.0) else PriceRange(MinOf(ps), MaxOf(ps))
  }

  /** Stated over the stored rooms: every active room's price lies within the
      computed range and both ends are prices of active rooms; with no active room
      the range is (0, 0). */
  lemma {:induction false} PriceRangeBounds(rooms: map<Id, Room>, order: seq<Id>, hotelId: Id)
    requires forall id :: id in order <==> id in rooms
    ensures (forall id :: id in rooms ==> !ActiveRoomOf(rooms, id, hotelId))
              ==> PriceRangeOf(rooms, order, hotelId) == PriceRange(0.0, 0.0)
    ensures forall id :: ActiveRoomOf(rooms, id, hotelId) ==>
              PriceRangeOf(rooms, order, hotelId).min <= rooms[id].pricePerNight <= PriceRangeOf(rooms, order, hotelId).max
    ensures (exists id :: ActiveRoomOf(rooms, id, hotelId)) ==>
              (exists lo :: ActiveRoomOf(rooms, lo, hotelId) && rooms[lo].pricePerNight == PriceRangeOf(rooms, order, hotelId).min)
              && (exists hi :: ActiveRoomOf(rooms, hi, hotelId) && rooms[hi].pricePerNight == PriceRangeOf(rooms, order, hotelId).max)
  {
    var ps := ActivePrices(rooms, order, hotelId);
    var pr := PriceRangeOf(rooms, order, hotelId);
    if ps == [] {
      forall id | ActiveRoomOf(rooms, id, hotelId)
        ensures false
      {
        ActivePricesMembers(rooms, order, hotelId, rooms[id].pricePerNight);
      }
    } else {
      forall id | ActiveRoomOf(rooms, id, hotelId)
        ensures pr.min <= rooms[id].pricePerNight <= pr.max
      {
        ActivePricesMembers(rooms, order, hotelId, rooms[id].pricePerNight);
      }
      ActivePricesMembers(rooms, order, hotelId, pr.min);
      ActivePricesMembers(rooms, order, hotelId, pr.max);
    }
  }

  /** The hotels collection after `updateHotelPriceRange(hotelId)`: an unknown id
      changes nothing. */
  function Resynced(hotels: map<Id, Hotel>, rooms: map<Id, Room>, order: seq<Id>, hotelId: Id): (r: map<Id, Hotel>)
    ensures r.Keys == hotels.Keys
    ensures hotelId in hotels ==> r[hotelId] == hotels[hotelId].(priceRange := PriceRangeOf(rooms, order, hotelId))
    ensures forall h :: h in hotels && h != hotelId ==> r[h] == hotels[h]
  {
    if hotelId in hotels then hotels[hotelId := hotels[hotelId].(priceRange := PriceRangeOf(rooms, order, hotelId))]
    else hotels
  }

  /** The hotel's stored range is the one its active rooms determine. */
  predicate InSync(hotels: map<Id, Hotel>, rooms: map<Id, Room>, order: seq<Id>, hotelId: Id) {
    hotelId in hotels ==> hotels[hotelId].priceRange == PriceRangeOf(rooms, order, hotelId)
  }

  /** `updateHotelPriceRange`: writes the computed range into the hotel, if it exists. */
  method UpdateHotelPriceRange(db: Db, hotelId: Id)
    modifies db
    ensures db.hotels == Resynced(old(db.hotels), old(db.rooms), old(db.roomOrder), hotelId)
    ensures db.rooms == old(db.rooms) && db.roomOrder == old(db.roomOrder)
    ensures db.users == old(db.users) && db.bookings == old(db.bookings)
    ensures InSync(db.hotels, db.rooms, db.roomOrder, hotelId)
  {
    if hotelId in db.hotels {
      var ps := ActivePrices(db.rooms, db.roomOrder, hotelId);
      var range := if ps == [] then PriceRange(0.0, 0.0) else PriceRange(MinOf(ps), MaxOf(ps));
      db.hotels := db.hotels[hotelId := db.hotels[hotelId].(priceRange := range)];
    }
  }

  // ---------------------------------------------------------------------------
  // Reads

  /** `getRoomById`: only active rooms are found. */
  function GetRoomById(rooms: map<Id, Room>, roomId: Id): (r: Result<Room>)
    ensures r.Ok? <==> ActiveRoom(rooms, roomId)
    ensures r.Ok? ==> r.value == rooms[roomId] && r.value.isActive
    ensures r.Err? ==> r.error == RoomNotFound
  {
    if ActiveRoom(rooms, roomId) then Ok(rooms[roomId]) else Err(RoomNotFound)
  }

  /** The optional guest counts of `getAvailableRooms` (`guests = {}` by default). */
  datatype GuestCounts = GuestCounts(adults: Option<int>, children: Option<int>)

  predicate TruthyInt(x: Option<int>) {
    x.Some? && x.value != 0
  }

  /** The capacity test: a count that is missing or 0 is not checked. */
  predicate Fits(r: Room, g: GuestCounts) {
    && !(TruthyInt(g.adults) && r.capacity.adults < g.adults.value)
    && !(TruthyInt(g.children) && r.capacity.children < g.children.value)
  }

  /** A room `getAvailableRooms` offers: of the hotel, active, bookable, large
      enough, and reported Available for the dates. */
  predicate Offered(rooms: map<Id, Room>, bookings: map<Id, Booking>, id: Id, hotelId: Id,
                    checkIn: int, checkOut: int, g: GuestCounts) {
    && id in rooms && rooms[id].hotelId == hotelId && rooms[id].isActive && rooms[id].isAvailable
    && Fits(rooms[id], g)
    && CheckRoomAvailability(rooms, bookings, id, checkIn, checkOut) == Ok(Available)
  }

  /** The offered rooms among `ids`, in the order of `ids`. */
  function OfferedAmong(rooms: map<Id, Room>, bookings: map<Id, Booking>, ids: seq<Id>, hotelId: Id,
                        checkIn: int, checkOut: int, g: GuestCounts): seq<Id> {
    if ids == [] then []
    else
      var rest := OfferedAmong(rooms, bookings, ids[..|ids| - 1], hotelId, checkIn, checkOut, g);
      var id := ids[|ids| - 1];
      if Offered(rooms, bookings, id, hotelId, checkIn, checkOut, g) then rest + [id] else rest
  }

  /** A room is in the answer exactly when it is one of `ids` and is offered; the
      answer is no longer than `ids`. */
  lemma {:induction false} OfferedAmongMembers(rooms: map<Id, Room>, bookings: map<Id, Booking>, ids: seq<Id>,
                                               hotelId: Id, checkIn: int, checkOut: int, g: GuestCounts, x: Id)
    ensures x in OfferedAmong(rooms, bookings, ids, hotelId, checkIn, checkOut, g) <==>
              x in ids && Offered(rooms, bookings, x, hotelId, checkIn, checkOut, g)
    ensures |OfferedAmong(rooms, bookings, ids, hotelId, checkIn, checkOut, g)| <= |ids|
  {
    if ids != [] {
      var init := ids[..|ids| - 1];
      OfferedAmongMembers(rooms, bookings, init, hotelId, checkIn, checkOut, g, x);
      assert ids == init + [ids[|ids| - 1]];
    }
  }

  /** `getAvailableRooms`: walks the hotel's active, bookable rooms in their natural
      order and keeps those that fit the guests and pass the availability check. */
  method GetAvailableRooms(rooms: map<Id, Room>, order: seq<Id>, bookings: map<Id, Booking>, hotelId: Id,
                           checkIn: int, checkOut: int, g: GuestCounts) returns (available: seq<Id>)
    ensures available == OfferedAmong(rooms, bookings, order, hotelId, checkIn, checkOut, g)
  {
    available := [];
    var i := 0;
    while i < |order|
      invariant 0 <= i <= |order|
      invariant available == OfferedAmong(rooms, bookings, order[..i], hotelId, checkIn, checkOut, g)
    {
      var id := order[i];
      assert order[..i + 1][..i] == order[..i];
      if !(id in rooms && rooms[id].hotelId == hotelId && rooms[id].isActive && rooms[id].isAvailable) {
        // not returned by the find
      } else if TruthyInt(g.adults) && rooms[id].capacity.adults < g.adults.value {
        // too few adult places
      } else if TruthyInt(g.children) && rooms[id].capacity.children < g.children.value {
        // too few child places
      } else {
        var verdict := CheckRoomAvailability(rooms, bookings, id, checkIn, checkOut);
        if verdict == Ok(Available) {
          available := available + [id];
        }
      }
      i := i + 1;
    }
    assert order[..i] == order;
  }

  // ---------------------------------------------------------------------------
  // createRoom

  /** An active room of the hotel already uses the number (createRoom's own check). */
  predicate ActiveNumberTaken(rooms: map<Id, Room>, hotelId: Id, roomNumber: string) {
    exists id :: id in rooms && rooms[id].isActive && rooms[id].hotelId == hotelId && rooms[id].roomNumber == roomNumber
  }

  /** `createRoom` up to the write: the hotel must exist and be active, no active
      room of it may use the (trimmed) number, the room must pass validation, and
      the unique index rejects a number held by any room of the hotel. */
  function CreateRoomOutcome(hotels: map<Id, Hotel>, rooms: map<Id, Room>, inp: RoomInput): (r: Result<Room>)
    ensures (inp.hotelId !in hotels || !hotels[inp.hotelId].isActive) ==> r == Err(HotelNotFound)
    ensures (inp.hotelId in hotels && hotels[inp.hotelId].isActive && inp.roomNumber.Some?
             && ActiveNumberTaken(rooms, inp.hotelId, Trim(inp.roomNumber.value))) ==> r == Err(DuplicateRoomNumber)
    ensures r.Ok? ==> inp.hotelId in hotels && hotels[inp.hotelId].isActive
    ensures r.Ok? ==> BuildRoom(inp) == r && RoomValid(r.value) && r.value.hotelId == inp.hotelId
    ensures r.Ok? ==> !NumberTaken(rooms, r.value.hotelId, r.value.roomNumber)
    ensures r.Err? ==> r.error in {HotelNotFound, DuplicateRoomNumber, RoomValidationFailed, DuplicateKey}
    ensures r.Ok? <==>
              && inp.hotelId in hotels && hotels[inp.hotelId].isActive
              && !(inp.roomNumber.Some? && ActiveNumberTaken(rooms, inp.hotelId, Trim(inp.roomNumber.value)))
              && BuildRoom(inp).Ok? && !NumberTaken(rooms, BuildRoom(inp).value.hotelId, BuildRoom(inp).value.roomNumber)
    ensures (inp.hotelId in hotels && hotels[inp.hotelId].isActive
             && !(inp.roomNumber.Some? && ActiveNumberTaken(rooms, inp.hotelId, Trim(inp.roomNumber.value)))
             && BuildRoom(inp).Err?) ==> r == BuildRoom(inp)
  {
    if inp.hotelId !in hotels || !hotels[inp.hotelId].isActive then Err(HotelNotFound)
    else if inp.roomNumber.Some? && ActiveNumberTaken(rooms, inp.hotelId, Trim(inp.roomNumber.value)) then
      Err(DuplicateRoomNumber)
    else
      match BuildRoom(inp)
      case Err(e) => Err(e)
      case Ok(room) =>
        if NumberTaken(rooms, room.hotelId, room.roomNumber) then Err(DuplicateKey) else Ok(room)
  }

  /** A number held only by a soft-deleted room passes createRoom's check but is
      still refused by the unique index. */
  lemma NumberOfDeletedRoomIsRefusedByIndex(hotels: map<Id, Hotel>, rooms: map<Id, Room>, inp: RoomInput, old_: Id)
    requires inp.hotelId in hotels && hotels[inp.hotelId].isActive && BuildRoom(inp).Ok?
    requires !ActiveNumberTaken(rooms, inp.hotelId, BuildRoom(inp).value.roomNumber)
    requires old_ in rooms && rooms[old_].hotelId == inp.hotelId && rooms[old_].roomNumber == BuildRoom(inp).value.roomNumber
    ensures CreateRoomOutcome(hotels, rooms, inp) == Err(DuplicateKey)
  {
  }

  /** `createRoom`: stores the room under the fresh id, appends the id to the
      hotel's room list and recomputes the hotel's price range. */
  method CreateRoom(db: Db, inp: RoomInput, newId: Id) returns (r: Result<Id>)
    requires db.Valid() && newId !in db.rooms
    modifies db
    ensures db.Valid()
    ensures r.Ok? <==> CreateRoomOutcome(old(db.hotels), old(db.rooms), inp).Ok?
    ensures r.Err? ==> r.error == CreateRoomOutcome(old(db.hotels), old(db.rooms), inp).error
    ensures r.Err? ==> db.hotels == old(db.hotels) && db.rooms == old(db.rooms) && db.roomOrder == old(db.roomOrder)
    ensures r.Ok? ==> r.value == newId
                      && db.rooms == old(db.rooms)[newId := CreateRoomOutcome(old(db.hotels), old(db.rooms), inp).value]
                      && db.roomOrder == old(db.roomOrder) + [newId]
                      && db.hotels == Resynced(old(db.hotels)[inp.hotelId := old(db.hotels)[inp.hotelId].(rooms := old(db.hotels)[inp.hotelId].rooms + [newId])],
                                               db.rooms, db.roomOrder, inp.hotelId)
    ensures db.users == old(db.users) && db.bookings == old(db.bookings)
  {
    var outcome := CreateRoomOutcome(db.hotels, db.rooms, inp);
    if outcome.Err? {
      return Err(outcome.error);
    }
    var room := outcome.value;
    InsertKeepsUnique(db.rooms, newId, room);
    db.rooms := db.rooms[newId := room];
    db.roomOrder := db.roomOrder + [newId];
    var hotel := db.hotels[inp.hotelId];
    db.hotels := db.hotels[inp.hotelId := hotel.(rooms := hotel.rooms + [newId])];
    UpdateHotelPriceRange(db, inp.hotelId);
    r := Ok(newId);
  }

  // ---------------------------------------------------------------------------
  // updateRoom

  /** The fields an update may set; a missing field is left as it is. */
  datatype RoomPatch = RoomPatch(
    roomNumber: Option<string>,
    roomType: Option<string>,
    pricePerNight: Option<real>,
    adults: Option<int>,
    children: Option<int>,
    amenities: Option<seq<string>>,
    description: Option<string>,
    isAvailable: Option<bool>)

  /** The update validators (`runValidators: true`) on the paths the update sets. */
  predicate PatchValid(p: RoomPatch) {
    && (p.roomNumber.Some? ==> Trim(p.roomNumber.value) != "")
    && (p.roomType.Some? ==> p.roomType.value in RoomTypes)
    && (p.pricePerNight.Some? ==> p.pricePerNight.value >= 0.0)
    && (p.adults.Some? ==> p.adults.value >= 1)
    && (p.children.Some? ==> p.children.value >= 0)
    && (p.amenities.Some? ==> forall i :: 0 <= i < |p.amenities.value| ==> p.amenities.value[i] in RoomAmenities)
    && (p.description.Some? ==> |p.description.value| <= MaxRoomDescription)
  }

  function ApplyPatch(r: Room, p: RoomPatch): Room {
    Room(r.hotelId,
         if p.roomNumber.Some? then Trim(p.roomNumber.value) else r.roomNumber,
         p.roomType.GetOr(r.roomType),
         p.pricePerNight.GetOr(r.pricePerNight),
         Capacity(p.adults.GetOr(r.capacity.adults), p.children.GetOr(r.capacity.children)),
         p.amenities.GetOr(r.amenities),
         if p.description.Some? then p.description else r.description,
         r.size, r.bedType,
         p.isAvailable.GetOr(r.isAvailable),
         r.isActive)
  }

  /** An update that passes its validators keeps a valid room valid, on the same
      hotel, with the same active flag. */
  lemma PatchKeepsRoomValid(r: Room, p: RoomPatch)
    requires PatchValid(p)
    ensures RoomValid(r) ==> RoomValid(ApplyPatch(r, p))
    ensures ApplyPatch(r, p).hotelId == r.hotelId && ApplyPatch(r, p).isActive == r.isActive
    ensures p.pricePerNight.None? ==> ApplyPatch(r, p).pricePerNight == r.pricePerNight
  {
  }

  /** Another room of the same hotel holds the number. */
  predicate NumberTakenByOther(rooms: map<Id, Room>, self: Id, hotelId: Id, roomNumber: string) {
    exists id :: id in rooms && id != self && rooms[id].hotelId == hotelId && rooms[id].roomNumber == roomNumber
  }

  /** `findOneAndUpdate({ _id, isActive: true }, update, { runValidators: true })`:
      the validators run before the lookup, then the room must be active, then the
      unique index is checked. */
  function UpdateRoomOutcome(rooms: map<Id, Room>, roomId: Id, p: RoomPatch): (r: Result<Room>)
    ensures !PatchValid(p) ==> r == Err(RoomValidationFailed)
    ensures PatchValid(p) && !ActiveRoom(rooms, roomId) ==> r == Err(RoomNotFound)
    ensures r.Ok? ==> ActiveRoom(rooms, roomId) && r.value == ApplyPatch(rooms[roomId], p)
    ensures r.Ok? ==> !NumberTakenByOther(rooms, roomId, r.value.hotelId, r.value.roomNumber)
    ensures r.Ok? && RoomValid(rooms[roomId]) ==> RoomValid(r.value)
    ensures r.Ok? <==> PatchValid(p) && ActiveRoom(rooms, roomId)
                       && !NumberTakenByOther(rooms, roomId, rooms[roomId].hotelId, ApplyPatch(rooms[roomId], p).roomNumber)
    ensures (PatchValid(p) && ActiveRoom(rooms, roomId)
             && NumberTakenByOther(rooms, roomId, rooms[roomId].hotelId, ApplyPatch(rooms[roomId], p).roomNumber))
            ==> r == Err(DuplicateKey)
    ensures r.Err? ==> r.error in {RoomValidationFailed, RoomNotFound, DuplicateKey}
  {
    if !PatchValid(p) then Err(RoomValidationFailed)
    else if !ActiveRoom(rooms, roomId) then Err(RoomNotFound)
    else
      var room := ApplyPatch(rooms[roomId], p);
      PatchKeepsRoomValid(rooms[roomId], p);
      if NumberTakenByOther(rooms, roomId, room.hotelId, room.roomNumber) then Err(DuplicateKey) else Ok(room)
  }

  /** The condition under which updateRoom recomputes the range, as written:
      `if (updateData.pricePerNight)`, which is false for a new price of 0. */
  predicate RecomputesAsWritten(p: RoomPatch) {
    p.pricePerNight.Some? && p.pricePerNight.value != 0.0
  }

  /** The condition the comment "if price was changed" intends: a price was given. */
  predicate Recomputes(p: RoomPatch) {
    p.pricePerNight.Some?
  }

  /** The rooms and hotels a successful update leaves behind, with the recompute
      condition given as `recompute`. */
  function HotelsAfterUpdate(hotels: map<Id, Hotel>, rooms: map<Id, Room>, order: seq<Id>, hotelId: Id,
                             recompute: bool): map<Id, Hotel> {
    if recompute then Resynced(hotels, rooms, order, hotelId) else hotels
  }

  /** As written, lowering the only room of a hotel from 100 to 0 a night leaves the
      hotel advertising (100, 100) although its one active room now costs 0. */
  lemma UpdateRoomAsWrittenLeavesStaleRange()
    ensures var room := Room("h", "101", "Single", 100.0, Capacity(1, 0), [], None, None, None, true, true);
            var hotel := Hotel("Inn", Location("a", "c", "s", "n", "z"), "A small inn", [], Rating(0.0, 0),
                               PriceRange(100.0, 100.0), ["r"], true, "u", 0);
            var p := RoomPatch(None, None, Some(0.0), None, None, None, None, None);
            var rooms := map["r" := room];
            && InSync(map["h" := hotel], rooms, ["r"], "h")
            && UpdateRoomOutcome(rooms, "r", p).Ok?
            && var rooms' := rooms["r" := UpdateRoomOutcome(rooms, "r", p).value];
               && !InSync(HotelsAfterUpdate(map["h" := hotel], rooms', ["r"], "h", RecomputesAsWritten(p)), rooms', ["r"], "h")
               && InSync(HotelsAfterUpdate(map["h" := hotel], rooms', ["r"], "h", Recomputes(p)), rooms', ["r"], "h")
  {
    var room := Room("h", "101", "Single", 100.0, Capacity(1, 0), [], None, None, None, true, true);
    var p := RoomPatch(None, None, Some(0.0), None, None, None, None, None);
    var rooms := map["r" := room];
    assert ActivePrices(rooms, ["r"], "h") == [100.0] by {
      assert ["r"][..0] == [];
    }
    var rooms' := rooms["r" := ApplyPatch(room, p)];
    assert ActivePrices(rooms', ["r"], "h") == [0.0] by {
      assert ["r"][..0] == [];
    }
  }

  /** With the intended condition, a successful update keeps every hotel's range in
      step with its rooms whenever it was before. */
  lemma {:induction false} UpdateRoomKeepsRangeInSync(hotels: map<Id, Hotel>, rooms: map<Id, Room>, order: seq<Id>,
                                                      roomId: Id, p: RoomPatch, h: Id)
    requires UpdateRoomOutcome(rooms, roomId, p).Ok?
    requires InSync(hotels, rooms, order, h)
    ensures var rooms' := rooms[roomId := UpdateRoomOutcome(rooms, roomId, p).value];
            InSync(HotelsAfterUpdate(hotels, rooms', order, rooms[roomId].hotelId, Recomputes(p)), rooms', order, h)
  {
    var room' := UpdateRoomOutcome(rooms, roomId, p).value;
    var rooms' := rooms[roomId := room'];
    var owner := rooms[roomId].hotelId;
    if !Recomputes(p) || h != owner {
      ActivePricesFrame(rooms, rooms', order, h);
    }
  }

  /** Applies the update and, when `recompute` holds, recomputes the owning hotel's
      range; `updateRoom` and its intended form differ only in that condition. */
  method ApplyRoomUpdate(db: Db, roomId: Id, p: RoomPatch, recompute: bool) returns (r: Result<Room>)
    requires db.Valid()
    modifies db
    ensures db.Valid()
    ensures r == UpdateRoomOutcome(old(db.rooms), roomId, p)
    ensures r.Err? ==> db.rooms == old(db.rooms) && db.hotels == old(db.hotels)
    ensures r.Ok? ==> db.rooms == old(db.rooms)[roomId := r.value]
                      && db.hotels == HotelsAfterUpdate(old(db.hotels), db.rooms, db.roomOrder, r.value.hotelId, recompute)
    ensures db.roomOrder == old(db.roomOrder) && db.users == old(db.users) && db.bookings == old(db.bookings)
  {
    r := UpdateRoomOutcome(db.rooms, roomId, p);
    if r.Ok? {
      assert forall id :: id in db.rooms && id != roomId ==>
        db.rooms[id].hotelId != r.value.hotelId || db.rooms[id].roomNumber != r.value.roomNumber;
      db.rooms := db.rooms[roomId := r.value];
      if recompute {
        UpdateHotelPriceRange(db, r.value.hotelId);
      }
    }
  }

  /** `updateRoom` as written: applies the update and recomputes the owning hotel's
      range only when the new price is truthy, so a new price of 0 leaves it stale. */
  method UpdateRoom(db: Db, roomId: Id, p: RoomPatch) returns (r: Result<Room>)
    requires db.Valid()
    modifies db
    ensures db.Valid()
    ensures r == UpdateRoomOutcome(old(db.rooms), roomId, p)
    ensures r.Err? ==> db.rooms == old(db.rooms) && db.hotels == old(db.hotels)
    ensures r.Ok? ==> db.rooms == old(db.rooms)[roomId := r.value]
                      && db.hotels == HotelsAfterUpdate(old(db.hotels), db.rooms, db.roomOrder, r.value.hotelId, RecomputesAsWritten(p))
    ensures db.roomOrder == old(db.roomOrder) && db.users == old(db.users) && db.bookings == old(db.bookings)
  {
    r := ApplyRoomUpdate(db, roomId, p, p.pricePerNight.Some? && p.pricePerNight.value != 0.0);
  }

  /** `updateRoom` as intended: recomputes the owning hotel's range whenever a price
      was given, which keeps every range in step (UpdateRoomKeepsRangeInSync). */
  method UpdateRoomIntended(db: Db, roomId: Id, p: RoomPatch) returns (r: Result<Room>)
    requires db.Valid()
    modifies db
    ensures db.Valid()
    ensures r == UpdateRoomOutcome(old(db.rooms), roomId, p)
    ensures r.Err? ==> db.rooms == old(db.rooms) && db.hotels == old(db.hotels)
    ensures r.Ok? ==> db.rooms == old(db.rooms)[roomId := r.value]
                      && db.hotels == HotelsAfterUpdate(old(db.hotels), db.rooms, db.roomOrder, r.value.hotelId, Recomputes(p))
    ensures db.roomOrder == old(db.roomOrder) && db.users == old(db.users) && db.bookings == old(db.bookings)
  {
    r := ApplyRoomUpdate(db, roomId, p, p.pricePerNight.Some?);
  }

  // ---------------------------------------------------------------------------
  // deleteRoom and updateRoomAvailability

  /** `deleteRoom`: soft-deletes an active room, pulls its id from the hotel's room
      list and recomputes the hotel's range. */
  method DeleteRoom(db: Db, roomId: Id) returns (r: Result<string>)
    requires db.Valid()
    modifies db
    ensures db.Valid()
    ensures r.Err? <==> !ActiveRoom(old(db.rooms), roomId)
    ensures r.Err? ==> r.error == RoomNotFound && db.rooms == old(db.rooms) && db.hotels == old(db.hotels)
    ensures r.Ok? ==>
              var h := old(db.rooms)[roomId].hotelId;
              && r.value == RoomDeleted
              && db.rooms == old(db.rooms)[roomId := old(db.rooms)[roomId].(isActive := false)]
              && db.hotels == Resynced(if h in old(db.hotels) then old(db.hotels)[h := old(db.hotels)[h].(rooms := Without(old(db.hotels)[h].rooms, roomId))]
                                       else old(db.hotels), db.rooms, db.roomOrder, h)
    ensures db.roomOrder == old(db.roomOrder) && db.users == old(db.users) && db.bookings == old(db.bookings)
  {
    if !ActiveRoom(db.rooms, roomId) {
      return Err(RoomNotFound);
    }
    var room := db.rooms[roomId];
    UpdateKeepsUnique(db.rooms, roomId, room.(isActive := false));
    db.rooms := db.rooms[roomId := room.(isActive := false)];
    var h := room.hotelId;
    if h in db.hotels {
      var hotel := db.hotels[h];
      db.hotels := db.hotels[h := hotel.(rooms := Without(hotel.rooms, roomId))];
    }
    UpdateHotelPriceRange(db, h);
    r := Ok(RoomDeleted);
  }

  /** After a room is soft-deleted its hotel no longer lists it, and its price no
      longer counts towards the hotel's range. */
  lemma DeletedRoomLeavesHotel(hotel: Hotel, roomId: Id, rooms: map<Id, Room>, order: seq<Id>)
    requires roomId in rooms
    ensures roomId !in Without(hotel.rooms, roomId)
    ensures !ActiveRoomOf(rooms[roomId := rooms[roomId].(isActive := false)], roomId, rooms[roomId].hotelId)
  {
  }

  /** `updateRoomAvailability`: sets the bookable flag of an active room. */
  method UpdateRoomAvailability(db: Db, roomId: Id, isAvailable: bool) returns (r: Result<Room>)
    requires db.Valid()
    modifies db
    ensures db.Valid()
    ensures r.Err? <==> !ActiveRoom(old(db.rooms), roomId)
    ensures r.Err? ==> r.error == RoomNotFound && db.rooms == old(db.rooms)
    ensures r.Ok? ==> r.value == old(db.rooms)[roomId].(isAvailable := isAvailable) && db.rooms == old(db.rooms)[roomId := r.value]
    ensures db.hotels == old(db.hotels) && db.roomOrder == old(db.roomOrder)
    ensures db.users == old(db.users) && db.bookings == old(db.bookings)
  {
    if !ActiveRoom(db.rooms, roomId) {
      return Err(RoomNotFound);
    }
    var room := db.rooms[roomId].(isAvailable := isAvailable);
    UpdateKeepsUnique(db.rooms, roomId, room);
    db.rooms := db.rooms[roomId := room];
    r := Ok(room);
  }

  /** Switching a room's bookable flag never puts a hotel's price range out of step. */
  lemma {:induction false} AvailabilityFlagKeepsRangeInSync(hotels: map<Id, Hotel>, rooms: map<Id, Room>, order: seq<Id>,
                                                            roomId: Id, isAvailable: bool, h: Id)
    requires roomId in rooms && InSync(hotels, rooms, order, h)
    ensures InSync(hotels, rooms[roomId := rooms[roomId].(isAvailable := isAvailable)], order, h)
  {
    ActivePricesFrame(rooms, rooms[roomId := rooms[roomId].(isAvailable := isAvailable)], order, h);
  }
}
