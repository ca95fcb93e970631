/** The request rules applied before the handlers: one list of field errors per
    rule set, and `handleValidationErrors`, which answers 400 exactly when the list
    is not empty. A field is missing, a value of the expected kind, or present but
    malformed (text that is not a number, a date or an integer). `isEmail` and
    `isMongoId` are parameters. */
module Validation {
  import opened Common
  import opened Time
  import opened JsText
  import opened BookingModel
  import opened RoomModel
  import opened HotelModel
  import opened UserModel

  datatype Field<+T> = Missing | Value(v: T) | Malformed

  datatype FieldError = FieldError(path: string, msg: string)

  /** The message of a validator without its own message. */
  const DefaultMessage: string := "Invalid value"

  function Check(ok: bool, path: string, msg: string): (errs: seq<FieldError>)
    ensures errs == [] <==> ok
    ensures !ok ==> errs == [FieldError(path, msg)]
  {
    if ok then [] else [FieldError(path, msg)]
  }

  /** A text field as the validators see it: a missing one is the empty string. */
  function Text(f: Option<string>): string {
    f.GetOr("")
  }

  predicate IntAtLeast(f: Field<int>, min: int) {
    f.Value? && f.v >= min
  }

  /** An `.optional()` integer rule: a missing field passes. */
  predicate OptionalIntAtLeast(f: Field<int>, min: int) {
    f.Missing? || (f.Value? && f.v >= min)
  }

  predicate NonNegativeNumber(f: Field<real>) {
    f.Value? && f.v >= 0.0
  }

  /** `isNumeric().isFloat({ min: 0 }).withMessage(msg)`: the message belongs to
      the second validator only, so a value that is not a number fails both, the
      first with the default message; a negative number fails the second. */
  function NumberErrors(f: Field<real>, path: string, msg: string): (errs: seq<FieldError>)
    ensures errs == [] <==> NonNegativeNumber(f)
    ensures !f.Value? ==> errs == [FieldError(path, DefaultMessage), FieldError(path, msg)]
    ensures f.Value? && f.v < 0.0 ==> errs == [FieldError(path, msg)]
  {
    if f.Value? then Check(f.v >= 0.0, path, msg)
    else [FieldError(path, DefaultMessage), FieldError(path, msg)]
  }

  // ---------------------------------------------------------------------------
  // handleValidationErrors

  datatype Handled = Continue | BadRequest(status: int, message: string, errors: seq<FieldError>)

  const ValidationFailed: string := "Validation failed"

  /** `handleValidationErrors`: 400 with the list when any rule failed, otherwise
      the request goes on. */
  function HandleValidationErrors(errs: seq<FieldError>): (h: Handled)
    ensures h == Continue <==> errs == []
    ensures h != Continue ==> h == BadRequest(400, ValidationFailed, errs)
  {
    if errs == [] then Continue else BadRequest(400, ValidationFailed, errs)
  }

  // ---------------------------------------------------------------------------
  // Registration and login

  datatype RegistrationBody = RegistrationBody(name: Option<string>, email: Option<string>,
                                               password: Option<string>, phone: Option<string>)

  /** `validateUserRegistration`: a trimmed name of 2 to 50 characters, an e-mail,
      a password of at least 6 characters and a phone matching the pattern. */
  function RegistrationErrors(b: RegistrationBody, isEmail: string -> bool): (errs: seq<FieldError>)
    ensures errs == [] <==>
              && 2 <= |Trim(Text(b.name))| <= MaxUserName
              && isEmail(Text(b.email))
              && |Text(b.password)| >= MinPassword
              && PhoneMatches(Text(b.phone))
    ensures forall i :: 0 <= i < |errs| ==> errs[i].path in {"name", "email", "password", "phone"}
  {
    var name := Check(2 <= |Trim(Text(b.name))| <= MaxUserName, "name", "Name must be between 2 and 50 characters");
    var email := Check(isEmail(Text(b.email)), "email", "Please provide a valid email");
    var password := Check(|Text(b.password)| >= MinPassword, "password", "Password must be at least 6 characters long");
    var phone := Check(PhoneMatches(Text(b.phone)), "phone", "Please provide a valid phone number");
    name + email + password + phone
  }

  /** A body that passes the registration rules gives a user that passes the
      schema validators, so `registerUser` fails on it only for a missing e-mail
      or one already in use. */
  lemma RegistrationRulesImplySchema(b: RegistrationBody, isEmail: string -> bool, isAdmin: bool, now: int)
    requires RegistrationErrors(b, isEmail) == []
    requires Text(b.email) != ""
    ensures UserValid(NewUser(Trim(Text(b.name)), Text(b.email), Text(b.password), Text(b.phone), isAdmin, now))
  {
    TrimIdempotent(Text(b.name));
  }

  datatype LoginBody = LoginBody(email: Option<string>, password: Option<string>)

  /** `validateUserLogin`: an e-mail and a non-empty password. */
  function LoginErrors(b: LoginBody, isEmail: string -> bool): (errs: seq<FieldError>)
    ensures errs == [] <==> isEmail(Text(b.email)) && Text(b.password) != ""
  {
    Check(isEmail(Text(b.email)), "email", "Please provide a valid email")
    + Check(Text(b.password) != "", "password", "Password is required")
  }

  // ---------------------------------------------------------------------------
  // Hotels and rooms

  datatype HotelBody = HotelBody(name: Option<string>, address: Option<string>, city: Option<string>,
                                 state: Option<string>, country: Option<string>, zipCode: Option<string>,
                                 description: Option<string>, priceMin: Field<real>, priceMax: Field<real>)

  function LocationOf(b: HotelBody): Location {
    Location(Text(b.address), Text(b.city), Text(b.state), Text(b.country), Text(b.zipCode))
  }

  /** The five address rules of `validateHotel`. */
  function LocationErrors(b: HotelBody): (errs: seq<FieldError>)
    ensures errs == [] <==> LocationComplete(LocationOf(b))
  {
    Check(Text(b.address) != "", "location.address", "Address is required")
    + Check(Text(b.city) != "", "location.city", "City is required")
    + Check(Text(b.state) != "", "location.state", "State is required")
    + Check(Text(b.country) != "", "location.country", "Country is required")
    + Check(Text(b.zipCode) != "", "location.zipCode", "Zip code is required")
  }

  /** `validateHotel`: a trimmed name of 2 to 100 characters, every address field,
      a description of 10 to 1000 characters and two non-negative price bounds. */
  function HotelErrors(b: HotelBody): (errs: seq<FieldError>)
    ensures errs == [] <==>
              && 2 <= |Trim(Text(b.name))| <= MaxHotelName
              && LocationComplete(LocationOf(b))
              && 10 <= |Text(b.description)| <= MaxHotelDescription
              && NonNegativeNumber(b.priceMin) && NonNegativeNumber(b.priceMax)
  {
    var name := Check(2 <= |Trim(Text(b.name))| <= MaxHotelName, "name", "Hotel name must be between 2 and 100 characters");
    var location := LocationErrors(b);
    var description := Check(10 <= |Text(b.description)| <= MaxHotelDescription, "description",
                             "Description must be between 10 and 1000 characters");
    var prices := NumberErrors(b.priceMin, "priceRange.min", "Minimum price must be a positive number")
                  + NumberErrors(b.priceMax, "priceRange.max", "Maximum price must be a positive number");
    name + location + description + prices
  }

  /** A hotel body that passes the rules (with amenities from the enumeration, and
      an average rating in [0, 5] if it gives one) is stored by `createHotel` for any
      acting user, whatever rooms and active flag it carries. */
  lemma HotelRulesImplyBuild(b: HotelBody, amenities: seq<string>, ratingAverage: Option<real>, ratingCount: Option<nat>,
                             rooms: Option<seq<Id>>, isActive: Option<bool>, createdBy: Id, now: int)
    requires HotelErrors(b) == []
    requires forall i :: 0 <= i < |amenities| ==> amenities[i] in HotelAmenities
    requires 0.0 <= ratingAverage.GetOr(0.0) <= 5.0
    requires createdBy != ""
    ensures BuildHotel(HotelInput(Trim(Text(b.name)), LocationOf(b), Text(b.description), amenities,
                                  Some(b.priceMin.v), Some(b.priceMax.v), ratingAverage, ratingCount, rooms, isActive),
                       createdBy, now).Ok?
  {
    TrimIdempotent(Text(b.name));
  }

  datatype RoomBody = RoomBody(roomNumber: Option<string>, roomType: Option<string>, pricePerNight: Field<real>,
                               adults: Field<int>, children: Field<int>)

  /** `validateRoom`: a trimmed room number, a type from the enumeration, a
      non-negative price, at least one adult place and, when given, a non-negative
      number of child places. */
  function RoomErrors(b: RoomBody): (errs: seq<FieldError>)
    ensures errs == [] <==>
              && Trim(Text(b.roomNumber)) != ""
              && Text(b.roomType) in RoomTypes
              && NonNegativeNumber(b.pricePerNight)
              && IntAtLeast(b.adults, 1)
              && OptionalIntAtLeast(b.children, 0)
  {
    Check(Trim(Text(b.roomNumber)) != "", "roomNumber", "Room number is required")
    + Check(Text(b.roomType) in RoomTypes, "type", "Invalid room type")
    + NumberErrors(b.pricePerNight, "pricePerNight", "Price per night must be a positive number")
    + Check(IntAtLeast(b.adults, 1), "capacity.adults", "Adult capacity must be at least 1")
    + Check(OptionalIntAtLeast(b.children, 0), "capacity.children", "Children capacity must be 0 or more")
  }

  /** The room input a body that passed the rules becomes, with no optional extras. */
  function RoomInputOf(b: RoomBody, hotelId: Id): RoomInput
    requires RoomErrors(b) == []
  {
    RoomInput(hotelId, Some(Trim(Text(b.roomNumber))), Some(Text(b.roomType)), Some(b.pricePerNight.v),
              Some(b.adults.v), if b.children.Value? then Some(b.children.v) else None,
              [], None, None, None, None, None)
  }

  /** A room body that passes the rules builds a room that passes the schema. */
  lemma RoomRulesImplyBuild(b: RoomBody, hotelId: Id)
    requires RoomErrors(b) == [] && hotelId != ""
    ensures BuildRoom(RoomInputOf(b, hotelId)).Ok?
  {
    TrimIdempotent(Text(b.roomNumber));
  }

  // ---------------------------------------------------------------------------
  // Bookings and pagination

  datatype BookingBody = BookingBody(roomId: Option<string>, checkIn: Field<int>, checkOut: Field<int>,
                                     adults: Field<int>, children: Field<int>,
                                     phone: Option<string>, email: Option<string>)

  /** The time `toDate()` leaves for a date field: a date converts to itself and
      any other text to null, which compares as time 0. */
  function SanitizedTime(f: Field<int>): int {
    if f.Value? then f.v else 0
  }

  /** The time `new Date(req.body.checkIn)` denotes once the check-in rule has run:
      the converted date, time 0 for the null left by a malformed check-in, and
      an invalid date (no time) for an absent one. */
  function CheckInAsDate(checkIn: Field<int>): (t: Option<int>)
    ensures t.None? <==> checkIn.Missing?
  {
    match checkIn
    case Missing => None
    case Value(v) => Some(v)
    case Malformed => Some(0)
  }

  /** The check-in rule: `isISO8601` (default message), then the custom test on
      the converted value, which fails when it is before the start of today. */
  function CheckInErrors(f: Field<int>, clock: Clock): (errs: seq<FieldError>)
    ensures errs == [] <==> f.Value? && f.v >= StartOfDay(clock)
  {
    (if f.Value? then [] else [FieldError("checkIn", DefaultMessage)])
    + Check(SanitizedTime(f) >= StartOfDay(clock), "checkIn", "Check-in date cannot be in the past")
  }

  /** The check-out rule: `isISO8601`, then the custom test, which fails when the
      converted check-out is not after the check-in; an invalid date compares
      false with everything, so an absent check-in fails nothing here. */
  function CheckOutErrors(f: Field<int>, checkIn: Field<int>): (errs: seq<FieldError>)
    ensures errs == [] <==> f.Value? && (checkIn.Value? ==> f.v > checkIn.v) && (checkIn.Malformed? ==> f.v > 0)
  {
    (if f.Value? then [] else [FieldError("checkOut", DefaultMessage)])
    + Check(!(CheckInAsDate(checkIn).Some? && SanitizedTime(f) <= CheckInAsDate(checkIn).value),
            "checkOut", "Check-out date must be after check-in date")
  }

  /** `validateBooking`. */
  function BookingErrors(b: BookingBody, clock: Clock, isMongoId: string -> bool, isEmail: string -> bool): (errs: seq<FieldError>)
    ensures errs == [] <==>
              && isMongoId(Text(b.roomId))
              && b.checkIn.Value? && b.checkIn.v >= StartOfDay(clock)
              && b.checkOut.Value? && b.checkOut.v > b.checkIn.v
              && IntAtLeast(b.adults, 1) && OptionalIntAtLeast(b.children, 0)
              && PhoneMatches(Text(b.phone)) && isEmail(Text(b.email))
  {
    Check(isMongoId(Text(b.roomId)), "roomId", "Invalid room ID")
    + CheckInErrors(b.checkIn, clock)
    + CheckOutErrors(b.checkOut, b.checkIn)
    + Check(IntAtLeast(b.adults, 1), "guests.adults", "At least one adult is required")
    + Check(OptionalIntAtLeast(b.children, 0), "guests.children", "Number of children must be 0 or more")
    + Check(PhoneMatches(Text(b.phone)), "contactInfo.phone", "Please provide a valid phone number")
    + Check(isEmail(Text(b.email)), "contactInfo.email", "Please provide a valid email")
  }

  /** With a malformed check-in and today after time 0, the check-in gets both
      errors, and a later check-out is not reported; with no check-in at all the
      check-out rule reports only a malformed check-out, and only with the
      default message, since nothing compares before an invalid date. */
  lemma MalformedCheckInReports(out: Field<int>, clock: Clock)
    requires StartOfDay(clock) > 0
    ensures CheckInErrors(Malformed, clock)
              == [FieldError("checkIn", DefaultMessage), FieldError("checkIn", "Check-in date cannot be in the past")]
    ensures out.Value? && out.v > 0 ==> CheckOutErrors(out, Malformed) == []
    ensures CheckOutErrors(out, Missing) == if out.Value? then [] else [FieldError("checkOut", DefaultMessage)]
  {
  }

  /** A booking body that passes the rules meets the booking schema's date and
      guest constraints, for any room, total and contact details that meet the rest. */
  lemma BookingRulesImplySchema(b: BookingBody, clock: Clock, isMongoId: string -> bool, isEmail: string -> bool,
                                userId: Id, roomId: Id, hotelId: Id, total: real, contact: ContactInfo)
    requires BookingErrors(b, clock, isMongoId, isEmail) == []
    requires userId != "" && roomId != "" && hotelId != "" && total >= 0.0
    requires contact.phone != "" && contact.email != ""
    ensures BookingValid(NewBooking(userId, roomId, hotelId, b.checkIn.v, b.checkOut.v, b.adults.v,
                                    if b.children.Value? then Some(b.children.v) else None,
                                    total, None, contact, clock.now), StartOfDay(clock))
  {
  }

  /** `validateObjectId(name)`: the route parameter must be an object id. */
  function ObjectIdErrors(paramName: string, value: string, isMongoId: string -> bool): (errs: seq<FieldError>)
    ensures errs == [] <==> isMongoId(value)
    ensures errs != [] ==> errs == [FieldError(paramName, "Invalid " + paramName)]
  {
    Check(isMongoId(value), paramName, "Invalid " + paramName)
  }

  /** `validatePagination`: page at least 1 and limit between 1 and 100, each when given. */
  function PaginationErrors(page: Field<int>, limit: Field<int>): (errs: seq<FieldError>)
    ensures errs == [] <==> OptionalIntAtLeast(page, 1) && (limit.Missing? || (limit.Value? && 1 <= limit.v <= 100))
  {
    Check(OptionalIntAtLeast(page, 1), "page", "Page must be a positive integer")
    + Check(limit.Missing? || (limit.Value? && 1 <= limit.v <= 100), "limit", "Limit must be between 1 and 100")
  }

  /** Accepted pagination, with the services' defaults (page 1, 10 per page), always
      gives a page of at least 1 and a limit of 1 to 100. */
  lemma PaginationRulesGiveUsablePages(page: Field<int>, limit: Field<int>)
    requires PaginationErrors(page, limit) == []
    ensures var p := if page.Value? then page.v else 1;
            var l := if limit.Value? then limit.v else 10;
            p >= 1 && 1 <= l <= 100
  {
  }
}
