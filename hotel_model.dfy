/** The Hotel record: location, amenity enumeration, rating bounds and defaults,
    the required price range, the list of room ids and the owner. */
module HotelModel {
  import opened Common
  import opened JsText

  const HotelAmenities: set<string> :=
    {"WiFi", "Pool", "Gym", "Spa", "Restaurant", "Bar", "Parking", "Pet Friendly", "Business Center", "Room Service"}
  const MaxHotelName: int := 100
  const MaxHotelDescription: int := 1000

  /** Address fields; a missing field is the empty string, which `required` rejects. */
  datatype Location = Location(address: string, city: string, state: string, country: string, zipCode: string)
  datatype Rating = Rating(average: real, count: nat)
  datatype PriceRange = PriceRange(min: real, max: real)

  datatype Hotel = Hotel(
    name: string,
    location: Location,
    description: string,
    amenities: seq<string>,
    rating: Rating,
    priceRange: PriceRange,
    rooms: seq<Id>,
    isActive: bool,
    createdBy: Id,
    createdAt: int)

  /** The body spread into `new Hotel({ ...body, createdBy })`. The price bounds may
      be missing; the rating, the room list and the active flag may be given, and
      take the schema defaults when they are not. */
  datatype HotelInput = HotelInput(
    name: string,
    location: Location,
    description: string,
    amenities: seq<string>,
    priceMin: Option<real>,
    priceMax: Option<real>,
    ratingAverage: Option<real>,
    ratingCount: Option<nat>,
    rooms: Option<seq<Id>>,
    isActive: Option<bool>)

  predicate LocationComplete(l: Location) {
    l.address != "" && l.city != "" && l.state != "" && l.country != "" && l.zipCode != ""
  }

  /** The schema validators: a non-empty name of at most 100 characters, a complete
      location, a non-empty description of at most 1000 characters, amenities from
      the enumeration, an average rating in [0, 5] and an owner. */
  predicate HotelValid(h: Hotel) {
    && h.name != "" && |h.name| <= MaxHotelName
    && LocationComplete(h.location)
    && h.description != "" && |h.description| <= MaxHotelDescription
    && (forall i :: 0 <= i < |h.amenities| ==> h.amenities[i] in HotelAmenities)
    && 0.0 <= h.rating.average <= 5.0
    && h.createdBy != ""
  }

  const HotelValidationFailed: string := "Hotel validation failed"

  /** `new Hotel({ ...inp, createdBy })` then the validation step of `save()`: the name is
      trimmed, the owner is the acting user whatever the body says, the rating defaults
      to 0 with no votes, the room list to empty and the hotel to active; both price
      bounds are required and a given average must lie in [0, 5]. */
  function BuildHotel(inp: HotelInput, createdBy: Id, now: int): (r: Result<Hotel>)
    ensures r.Ok? <==> && inp.priceMin.Some? && inp.priceMax.Some?
                       && Trim(inp.name) != "" && |Trim(inp.name)| <= MaxHotelName
                       && LocationComplete(inp.location)
                       && inp.description != "" && |inp.description| <= MaxHotelDescription
                       && (forall i :: 0 <= i < |inp.amenities| ==> inp.amenities[i] in HotelAmenities)
                       && 0.0 <= inp.ratingAverage.GetOr(0.0) <= 5.0
                       && createdBy != ""
    ensures r.Ok? ==> r.value.createdBy == createdBy && r.value.name == Trim(inp.name)
    ensures r.Ok? ==> r.value.rating == Rating(inp.ratingAverage.GetOr(0.0), inp.ratingCount.GetOr(0))
                      && r.value.rooms == inp.rooms.GetOr([]) && r.value.isActive == inp.isActive.GetOr(true)
    ensures r.Ok? ==> r.value.priceRange == PriceRange(inp.priceMin.value, inp.priceMax.value)
    ensures r.Ok? ==> HotelValid(r.value)
    ensures r.Err? ==> r.error == HotelValidationFailed
  {
    if inp.priceMin.None? || inp.priceMax.None? then Err(HotelValidationFailed)
    else
      var h := Hotel(Trim(inp.name), inp.location, inp.description, inp.amenities,
                     Rating(inp.ratingAverage.GetOr(0.0), inp.ratingCount.GetOr(0)),
                     PriceRange(inp.priceMin.value, inp.priceMax.value),
                     inp.rooms.GetOr([]), inp.isActive.GetOr(true), createdBy, now);
      if HotelValid(h) then Ok(h) else Err(HotelValidationFailed)
  }

  /** A body that gives no rating, rooms or active flag yields a fresh hotel: no
      votes, no rooms, active. A body that gives them has them stored as given. */
  lemma BuildHotelDefaults(inp: HotelInput, createdBy: Id, now: int)
    requires BuildHotel(inp, createdBy, now).Ok?
    ensures inp.ratingAverage.None? && inp.ratingCount.None? ==> BuildHotel(inp, createdBy, now).value.rating == Rating(0.0, 0)
    ensures inp.rooms.None? ==> BuildHotel(inp, createdBy, now).value.rooms == []
    ensures inp.isActive.None? ==> BuildHotel(inp, createdBy, now).value.isActive
    ensures BuildHotel(inp.(isActive := Some(false)), createdBy, now)
            == Ok(BuildHotel(inp, createdBy, now).value.(isActive := false))
  {
  }

  /** A hotel without both price bounds, without an owner, with an amenity outside
      the enumeration or with an average rating outside [0, 5] is never stored. */
  lemma BuildRejects(inp: HotelInput, createdBy: Id, now: int)
    requires inp.priceMin.None? || inp.priceMax.None? || createdBy == ""
             || (exists i :: 0 <= i < |inp.amenities| && inp.amenities[i] !in HotelAmenities)
             || (inp.ratingAverage.Some? && !(0.0 <= inp.ratingAverage.value <= 5.0))
    ensures BuildHotel(inp, createdBy, now) == Err(HotelValidationFailed)
  {
  }
}
