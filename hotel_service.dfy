/** The hotel service: creation stamped with the owner, the owner-or-admin gate of
    update and delete, the cascade of a delete to the hotel's rooms, the read
    filters and the rating counter. */
module HotelService {
  import opened Common
  import Time
  import opened Query
  import opened BookingModel
  import opened RoomModel
  import opened HotelModel
  import opened JsText
  import opened Store
  import opened RoomService
  import opened BookingService

  const NoUpdatePermission: string := "Hotel not found or you do not have permission to update it"
  const NoDeletePermission: string := "Hotel not found or you do not have permission to delete it"
  const HotelDeleted: string := "Hotel deleted successfully"
  /** The message of a validation error raised by the validators of an update query. */
  const UpdateValidationFailed: string := "Validation failed"

  /** The hotel is active and the caller is an admin or its creator (the query
      `{ _id, isActive: true, createdBy: userId }` of a non-admin). */
  predicate MayManage(hotels: map<Id, Hotel>, hotelId: Id, userId: Id, isAdmin: bool) {
    hotelId in hotels && hotels[hotelId].isActive && (isAdmin || hotels[hotelId].createdBy == userId)
  }

  // ---------------------------------------------------------------------------
  // createHotel

  /** `createHotel`: the new hotel is owned by the acting user. */
  method CreateHotel(db: Db, inp: HotelInput, userId: Id, now: int, newId: Id) returns (r: Result<Id>)
    requires newId !in db.hotels
    modifies db
    ensures r.Ok? <==> BuildHotel(inp, userId, now).Ok?
    ensures r.Err? ==> r.error == HotelValidationFailed && db.hotels == old(db.hotels)
    ensures r.Ok? ==> r.value == newId && db.hotels == old(db.hotels)[newId := BuildHotel(inp, userId, now).value]
                      && db.hotels[newId].createdBy == userId
    ensures db.rooms == old(db.rooms) && db.roomOrder == old(db.roomOrder)
    ensures db.users == old(db.users) && db.bookings == old(db.bookings)
  {
    var built := BuildHotel(inp, userId, now);
    if built.Err? {
      return Err(built.error);
    }
    db.hotels := db.hotels[newId := built.value];
    r := Ok(newId);
  }

  // ---------------------------------------------------------------------------
  // updateHotel

  /** The fields an update body may set on a hotel; a missing field is left as it is. */
  datatype HotelPatch = HotelPatch(
    name: Option<string>,
    location: Option<Location>,
    description: Option<string>,
    amenities: Option<seq<string>>,
    priceRange: Option<PriceRange>)

  /** The update validators on the paths the patch sets (the name is trimmed first). */
  predicate HotelPatchValid(p: HotelPatch) {
    && (p.name.Some? ==> Trim(p.name.value) != "" && |Trim(p.name.value)| <= MaxHotelName)
    && (p.location.Some? ==> LocationComplete(p.location.value))
    && (p.description.Some? ==> p.description.value != "" && |p.description.value| <= MaxHotelDescription)
    && (p.amenities.Some? ==> forall i :: 0 <= i < |p.amenities.value| ==> p.amenities.value[i] in HotelAmenities)
  }

  function ApplyHotelPatch(h: Hotel, p: HotelPatch): Hotel {
    h.(name := if p.name.Some? then Trim(p.name.value) else h.name,
       location := p.location.GetOr(h.location),
       description := p.description.GetOr(h.description),
       amenities := p.amenities.GetOr(h.amenities),
       priceRange := p.priceRange.GetOr(h.priceRange))
  }

  /** A valid patch keeps a valid hotel valid and never changes its owner, rating,
      room list or active flag. */
  lemma PatchKeepsHotelValid(h: Hotel, p: HotelPatch)
    requires HotelPatchValid(p)
    ensures HotelValid(h) ==> HotelValid(ApplyHotelPatch(h, p))
    ensures var h' := ApplyHotelPatch(h, p);
            h'.createdBy == h.createdBy && h'.rating == h.rating && h'.rooms == h.rooms && h'.isActive == h.isActive
    ensures p == HotelPatch(None, None, None, None, None) ==> ApplyHotelPatch(h, p) == h
  {
  }

  /** `updateHotel` up to the write: the update validators run before the query,
      then the gate; anything the gate does not find is reported as missing. */
  function UpdateHotelOutcome(hotels: map<Id, Hotel>, hotelId: Id, p: HotelPatch, userId: Id, isAdmin: bool): (r: Result<Hotel>)
    ensures !HotelPatchValid(p) ==> r == Err(UpdateValidationFailed)
    ensures HotelPatchValid(p) && !MayManage(hotels, hotelId, userId, isAdmin) ==> r == Err(NoUpdatePermission)
    ensures r.Ok? <==> HotelPatchValid(p) && MayManage(hotels, hotelId, userId, isAdmin)
    ensures r.Ok? && !isAdmin ==> hotels[hotelId].createdBy == userId
    ensures r.Ok? ==> r.value == ApplyHotelPatch(hotels[hotelId], p)
  {
    if !HotelPatchValid(p) then Err(UpdateValidationFailed)
    else if !MayManage(hotels, hotelId, userId, isAdmin) then Err(NoUpdatePermission)
    else Ok(ApplyHotelPatch(hotels[hotelId], p))
  }

  /** A non-admin can never change a hotel created by someone else, nor a
      soft-deleted one. */
  lemma OnlyOwnerUpdates(hotels: map<Id, Hotel>, hotelId: Id, p: HotelPatch, userId: Id)
    requires hotelId in hotels && (hotels[hotelId].createdBy != userId || !hotels[hotelId].isActive)
    ensures UpdateHotelOutcome(hotels, hotelId, p, userId, false).Err?
  {
  }

  /** `updateHotel` on the store. */
  method UpdateHotel(db: Db, hotelId: Id, p: HotelPatch, userId: Id, isAdmin: bool) returns (r: Result<Hotel>)
    modifies db
    ensures r == UpdateHotelOutcome(old(db.hotels), hotelId, p, userId, isAdmin)
    ensures db.hotels == if r.Ok? then old(db.hotels)[hotelId := r.value] else old(db.hotels)
    ensures db.rooms == old(db.rooms) && db.roomOrder == old(db.roomOrder)
    ensures db.users == old(db.users) && db.bookings == old(db.bookings)
  {
    r := UpdateHotelOutcome(db.hotels, hotelId, p, userId, isAdmin);
    if r.Ok? {
      db.hotels := db.hotels[hotelId := r.value];
    }
  }

  // ---------------------------------------------------------------------------
  // deleteHotel

  /** The rooms collection after `Room.updateMany({ hotelId }, { isActive: false })`. */
  function Deactivated(rooms: map<Id, Room>, hotelId: Id): map<Id, Room> {
    map id | id in rooms :: if rooms[id].hotelId == hotelId then rooms[id].(isActive := false) else rooms[id]
  }

  /** The cascade leaves no active room in the hotel, touches no other hotel's room
      and keeps the room-number index unique. */
  lemma DeactivatedShape(rooms: map<Id, Room>, hotelId: Id)
    ensures Deactivated(rooms, hotelId).Keys == rooms.Keys
    ensures forall id :: id in rooms ==> !ActiveRoomOf(Deactivated(rooms, hotelId), id, hotelId)
    ensures forall id :: id in rooms && rooms[id].hotelId != hotelId ==> Deactivated(rooms, hotelId)[id] == rooms[id]
    ensures UniqueRoomNumbers(rooms) ==> UniqueRoomNumbers(Deactivated(rooms, hotelId))
  {
  }

  /** After the cascade the hotel has no active price, so a recomputed range would be (0, 0). */
  lemma {:induction false} DeactivatedHasNoPrices(rooms: map<Id, Room>, order: seq<Id>, hotelId: Id)
    ensures ActivePrices(Deactivated(rooms, hotelId), order, hotelId) == []
    ensures PriceRangeOf(Deactivated(rooms, hotelId), order, hotelId) == PriceRange(0.0, 0.0)
  {
    if order != [] {
      DeactivatedHasNoPrices(rooms, order[..|order| - 1], hotelId);
    }
  }

  /** No room of a deleted hotel can be booked, and no room can be added to it. */
  lemma DeletedHotelIsClosed(hotels: map<Id, Hotel>, rooms: map<Id, Room>, bookings: map<Id, Booking>,
                             hotelId: Id, req: BookingRequest, userId: Id, clock: Time.Clock, inp: RoomInput)
    requires hotelId in hotels
    requires req.roomId in rooms && rooms[req.roomId].hotelId == hotelId
    requires inp.hotelId == hotelId
    ensures CreateBookingOutcome(Deactivated(rooms, hotelId), bookings, req, userId, clock) == Err(RoomNotFound)
    ensures CreateRoomOutcome(hotels[hotelId := hotels[hotelId].(isActive := false)], Deactivated(rooms, hotelId), inp)
            == Err(HotelNotFound)
  {
  }

  /** `deleteHotel`: behind the same gate as an update, soft-deletes the hotel and
      then, in one bulk update, every room whose hotelId is the hotel's. The
      hotel's room list and price range are left as they were. */
  method DeleteHotel(db: Db, hotelId: Id, userId: Id, isAdmin: bool) returns (r: Result<string>)
    requires db.Valid()
    modifies db
    ensures db.Valid()
    ensures r.Ok? <==> MayManage(old(db.hotels), hotelId, userId, isAdmin)
    ensures r.Err? ==> r.error == NoDeletePermission && db.hotels == old(db.hotels) && db.rooms == old(db.rooms)
    ensures r.Ok? ==> r.value == HotelDeleted
                      && db.hotels == old(db.hotels)[hotelId := old(db.hotels)[hotelId].(isActive := false)]
                      && db.rooms == Deactivated(old(db.rooms), hotelId)
    ensures db.roomOrder == old(db.roomOrder) && db.users == old(db.users) && db.bookings == old(db.bookings)
  {
    if !MayManage(db.hotels, hotelId, userId, isAdmin) {
      return Err(NoDeletePermission);
    }
    db.hotels := db.hotels[hotelId := db.hotels[hotelId].(isActive := false)];
    DeactivatedShape(db.rooms, hotelId);
    db.rooms := Deactivated(db.rooms, hotelId);
    r := Ok(HotelDeleted);
  }

  // ---------------------------------------------------------------------------
  // Reads

  /** The active rooms among a hotel's room list, in list order (the populate
      with `match: { isActive: true }`). */
  function ActiveListed(rooms: map<Id, Room>, ids: seq<Id>): (r: seq<Id>)
    ensures forall x :: x in r <==> x in ids && ActiveRoom(rooms, x)
    ensures |r| <= |ids|
  {
    if ids == [] then []
    else
      var init := ids[..|ids| - 1];
      var id := ids[|ids| - 1];
      assert ids == init + [id];
      if ActiveRoom(rooms, id) then ActiveListed(rooms, init) + [id] else ActiveListed(rooms, init)
  }

  datatype HotelDetails = HotelDetails(hotel: Hotel, activeRooms: seq<Id>)

  /** `getHotelById`: an active hotel with its active rooms. */
  function GetHotelById(hotels: map<Id, Hotel>, rooms: map<Id, Room>, hotelId: Id): (r: Result<HotelDetails>)
    ensures r.Ok? <==> hotelId in hotels && hotels[hotelId].isActive
    ensures r.Err? ==> r.error == HotelNotFound
    ensures r.Ok? ==> r.value.hotel == hotels[hotelId]
                      && forall x :: x in r.value.activeRooms <==> x in hotels[hotelId].rooms && ActiveRoom(rooms, x)
  {
    if hotelId in hotels && hotels[hotelId].isActive then
      Ok(HotelDetails(hotels[hotelId], ActiveListed(rooms, hotels[hotelId].rooms)))
    else Err(HotelNotFound)
  }

  /** The filters of `getAllHotels`; a price or rating filter of 0 is falsy and is
      not applied, nor is an empty amenity list. */
  datatype HotelFilter = HotelFilter(minPrice: Option<real>, maxPrice: Option<real>, amenities: seq<string>,
                                     rating: Option<real>)

  predicate TruthyReal(x: Option<real>) {
    x.Some? && x.value != 0.0
  }

  predicate HotelMatches(h: Hotel, f: HotelFilter) {
    && h.isActive
    && (TruthyReal(f.minPrice) ==> h.priceRange.min >= f.minPrice.value)
    && (TruthyReal(f.maxPrice) ==> h.priceRange.max <= f.maxPrice.value)
    && (f.amenities != [] ==> exists i :: 0 <= i < |h.amenities| && h.amenities[i] in f.amenities)
    && (TruthyReal(f.rating) ==> h.rating.average >= f.rating.value)
  }

  /** The message a query fails with when Mongoose cannot cast a condition value
      to the path's type, reduced to its kind. */
  const PriceFilterCastFailed: string := "Cast to Number failed"

  /** As written, a truthy `maxPrice` opens `query['priceRange.min'] = {}` and only a
      truthy `minPrice` fills it, so a max-only query keeps the empty object as the
      condition on the minimum, which Mongoose cannot cast to a number. */
  predicate LeavesEmptyMinCondition(f: HotelFilter) {
    TruthyReal(f.maxPrice) && !TruthyReal(f.minPrice)
  }

  /** The hotels the filters are meant to select and the envelope over them: every
      truthy filter applied on its own. */
  function GetAllHotelsIntended(hotels: map<Id, Hotel>, f: HotelFilter, page: int, limit: int): (r: (set<Id>, PageInfo))
    requires limit >= 1
    ensures forall id :: id in r.0 <==> id in hotels && HotelMatches(hotels[id], f)
    ensures r.1 == Envelope(page, limit, |r.0|)
  {
    var ids := set id | id in hotels && HotelMatches(hotels[id], f);
    (ids, Envelope(page, limit, |ids|))
  }

  /** `getAllHotels` as written: the find fails on a max-only price filter and
      otherwise lists the matching active hotels, with the envelope over them. */
  function GetAllHotels(hotels: map<Id, Hotel>, f: HotelFilter, page: int, limit: int): (r: Result<(set<Id>, PageInfo)>)
    requires limit >= 1
    ensures r.Err? <==> LeavesEmptyMinCondition(f)
    ensures r.Err? ==> r.error == PriceFilterCastFailed
    ensures r.Ok? ==> (forall id :: id in r.value.0 <==> id in hotels && HotelMatches(hotels[id], f))
                      && r.value.1 == Envelope(page, limit, |r.value.0|)
  {
    if LeavesEmptyMinCondition(f) then Err(PriceFilterCastFailed)
    else Ok(GetAllHotelsIntended(hotels, f, page, limit))
  }

  /** Only active hotels are listed; without filters every active hotel is; the
      price and rating filters hold of everything listed. */
  lemma GetAllHotelsRespectsFilters(hotels: map<Id, Hotel>, f: HotelFilter, page: int, limit: int)
    requires limit >= 1
    ensures forall id :: id in GetAllHotelsIntended(hotels, f, page, limit).0 ==> hotels[id].isActive
    ensures forall id :: id in GetAllHotelsIntended(hotels, f, page, limit).0 && f.rating.Some? && f.rating.value > 0.0 ==>
              hotels[id].rating.average >= f.rating.value
    ensures forall id :: id in GetAllHotelsIntended(hotels, f, page, limit).0 && TruthyReal(f.minPrice) ==>
              hotels[id].priceRange.min >= f.minPrice.value
    ensures forall id :: id in GetAllHotelsIntended(hotels, f, page, limit).0 && TruthyReal(f.maxPrice) ==>
              hotels[id].priceRange.max <= f.maxPrice.value
    ensures forall id :: id in hotels && hotels[id].isActive ==>
              id in GetAllHotelsIntended(hotels, HotelFilter(None, None, [], None), page, limit).0
    ensures GetAllHotels(hotels, HotelFilter(None, None, [], None), page, limit)
            == Ok(GetAllHotelsIntended(hotels, HotelFilter(None, None, [], None), page, limit))
  {
  }

  /** Apart from the max-only price filter, the query as written lists exactly what
      the filters are meant to select. */
  lemma GetAllHotelsAsIntendedUnlessMaxOnly(hotels: map<Id, Hotel>, f: HotelFilter, page: int, limit: int)
    requires limit >= 1 && !LeavesEmptyMinCondition(f)
    ensures GetAllHotels(hotels, f, page, limit) == Ok(GetAllHotelsIntended(hotels, f, page, limit))
  {
  }

  /** As written, asking only for hotels up to a price fails, even when an active
      hotel in that range exists. */
  lemma MaxOnlyPriceFilterFails()
    ensures var h := Hotel("Inn", Location("a", "c", "s", "n", "z"), "A small inn", [], Rating(0.0, 0),
                           PriceRange(50.0, 80.0), [], true, "u", 0);
            var f := HotelFilter(None, Some(100.0), [], None);
            && GetAllHotels(map["h" := h], f, 1, 10) == Err(PriceFilterCastFailed)
            && "h" in GetAllHotelsIntended(map["h" := h], f, 1, 10).0
  {
    var h := Hotel("Inn", Location("a", "c", "s", "n", "z"), "A small inn", [], Rating(0.0, 0),
                   PriceRange(50.0, 80.0), [], true, "u", 0);
    assert HotelMatches(h, HotelFilter(None, Some(100.0), [], None));
  }

  /** With a maximum price alone, the intended query lists exactly the active hotels
      whose range ends at or below it. */
  lemma MaxOnlyFilterIntended(hotels: map<Id, Hotel>, maxPrice: real, page: int, limit: int)
    requires limit >= 1 && maxPrice != 0.0
    ensures forall id :: id in GetAllHotelsIntended(hotels, HotelFilter(None, Some(maxPrice), [], None), page, limit).0
                         <==> id in hotels && hotels[id].isActive && hotels[id].priceRange.max <= maxPrice
  {
  }

  function CreatedAtOfHotels(hotels: map<Id, Hotel>, ids: set<Id>): map<Id, int>
    requires ids <= hotels.Keys
  {
    map id | id in ids :: hotels[id].createdAt
  }

  function OwnedBy(hotels: map<Id, Hotel>, userId: Id): set<Id> {
    set id | id in hotels && hotels[id].createdBy == userId
  }

  /** `getHotelsByUser`: the user's hotels, soft-deleted ones included, newest first,
      one page, and the envelope. */
  method GetHotelsByUser(hotels: map<Id, Hotel>, userId: Id, page: int, limit: int)
    returns (items: seq<Id>, info: PageInfo)
    requires page >= 1 && limit >= 1
    ensures info == Envelope(page, limit, |OwnedBy(hotels, userId)|)
    ensures |items| <= limit
    ensures forall i :: 0 <= i < |items| ==> items[i] in hotels && hotels[items[i]].createdBy == userId
    ensures exists all :: IsOrdering(all, OwnedBy(hotels, userId), CreatedAtOfHotels(hotels, OwnedBy(hotels, userId)), true)
                          && items == PageOf(all, page, limit)
  {
    var ids := OwnedBy(hotels, userId);
    items := SortedPage(ids, CreatedAtOfHotels(hotels, ids), true, page, limit);
    info := Envelope(page, limit, |ids|);
  }

  /** A soft-deleted hotel still counts among its owner's hotels. */
  lemma OwnedByIncludesInactive(hotels: map<Id, Hotel>, hotelId: Id)
    requires hotelId in hotels
    ensures var h := hotels[hotelId];
            hotelId in OwnedBy(hotels[hotelId := h.(isActive := false)], h.createdBy)
  {
  }

  // ---------------------------------------------------------------------------
  // updateHotelRating

  /** The running mean after one more rating (without the rounding to one decimal). */
  function NextAverage(r: Rating, newRating: real): real {
    (r.average * (r.count as real) + newRating) / ((r.count + 1) as real)
  }

  /** A mean of ratings in [0, 5] stays in [0, 5]. */
  lemma {:induction false} NextAverageBounds(r: Rating, newRating: real)
    requires 0.0 <= r.average <= 5.0 && 0.0 <= newRating <= 5.0
    ensures 0.0 <= NextAverage(r, newRating) <= 5.0
  {
    var n := r.count as real;
    assert 0.0 <= r.average * n <= 5.0 * n;
    assert 0.0 <= r.average * n + newRating <= 5.0 * (n + 1.0);
  }

  /** `updateHotelRating` up to the write: the hotel is looked up whether active or
      not, the count goes up by exactly one, and the save validators check the
      new average. */
  function RateOutcome(hotels: map<Id, Hotel>, hotelId: Id, newRating: real): (r: Result<Hotel>)
    ensures hotelId !in hotels ==> r == Err(HotelNotFound)
    ensures r.Ok? ==> hotelId in hotels && r.value.rating.count == hotels[hotelId].rating.count + 1
                      && r.value.rating.average == NextAverage(hotels[hotelId].rating, newRating)
                      && r.value.(rating := hotels[hotelId].rating) == hotels[hotelId]
                      && HotelValid(r.value)
    ensures r.Err? ==> r.error in {HotelNotFound, HotelValidationFailed}
  {
    if hotelId !in hotels then Err(HotelNotFound)
    else
      var h := hotels[hotelId];
      var rated := h.(rating := Rating(NextAverage(h.rating, newRating), h.rating.count + 1));
      if HotelValid(rated) then Ok(rated) else Err(HotelValidationFailed)
  }

  /** Rating a valid hotel with a score in [0, 5] always succeeds. */
  lemma RatingValidHotelSucceeds(hotels: map<Id, Hotel>, hotelId: Id, newRating: real)
    requires hotelId in hotels && HotelValid(hotels[hotelId]) && 0.0 <= newRating <= 5.0
    ensures RateOutcome(hotels, hotelId, newRating).Ok?
  {
    NextAverageBounds(hotels[hotelId].rating, newRating);
  }

  /** `updateHotelRating`: assigns the new average and count on the fetched hotel
      and saves it. */
  method UpdateHotelRating(db: Db, hotelId: Id, newRating: real) returns (r: Result<Hotel>)
    modifies db
    ensures r == RateOutcome(old(db.hotels), hotelId, newRating)
    ensures db.hotels == if r.Ok? then old(db.hotels)[hotelId := r.value] else old(db.hotels)
    ensures db.rooms == old(db.rooms) && db.roomOrder == old(db.roomOrder)
    ensures db.users == old(db.users) && db.bookings == old(db.bookings)
  {
    if hotelId !in db.hotels {
      return Err(HotelNotFound);
    }
    var hotel := db.hotels[hotelId];
    var totalRatings := hotel.rating.count;
    var currentAverage := hotel.rating.average;
    var newAverage := (currentAverage * (totalRatings as real) + newRating) / ((totalRatings + 1) as real);
    hotel := hotel.(rating := hotel.rating.(average := newAverage));
    hotel := hotel.(rating := hotel.rating.(count := totalRatings + 1));
    assert newAverage == NextAverage(db.hotels[hotelId].rating, newRating);
    if !HotelValid(hotel) {
      return Err(HotelValidationFailed);
    }
    db.hotels := db.hotels[hotelId := hotel];
    r := Ok(hotel);
  }
}
