/** The booking service: creation with its fixed sequence of checks, cancellation
    with the ownership and 24-hour rules, the two status updates, and the reads.
    Each write is atomic, so the check and the insert of `createBooking` cannot
    interleave with another request. */
module BookingService {
  import opened Common
  import opened Time
  import opened Query
  import opened BookingModel
  import opened RoomModel
  import opened Store
  import opened RoomService

  const AdultsExceeded: string := "Room cannot accommodate the number of adults"
  const ChildrenExceeded: string := "Room cannot accommodate the number of children"
  const BookingValidationFailed: string := "Booking validation failed"
  const BookingNotFound: string := "Booking not found"
  const NotCancellable: string := "Booking not found or cannot be cancelled"
  const TooLateToCancel: string := "Cannot cancel booking less than 24 hours before check-in"
  const InvalidBookingStatus: string := "Invalid booking status"
  const AdminOnlyPayment: string := "Only admin can update payment status"
  const InvalidPaymentStatus: string := "Invalid payment status"

  /** The booking body: dates in milliseconds, guest counts that may be missing. */
  datatype BookingRequest = BookingRequest(
    roomId: Id,
    checkIn: int,
    checkOut: int,
    adults: Option<int>,
    children: Option<int>,
    specialRequests: Option<string>,
    contactInfo: ContactInfo)

  /** `room.pricePerNight * Math.ceil((checkOut - checkIn) / day)`. */
  function ChargeFor(pricePerNight: real, checkIn: int, checkOut: int): real {
    pricePerNight * (CeilDiv(checkOut - checkIn, MsPerDay) as real)
  }

  /** For a stay that ends after it starts, the charge is the nightly price times the
      booking's `numberOfNights`; three days at 100 cost 300. */
  lemma ChargeIsPriceTimesNights(pricePerNight: real, checkIn: int, checkOut: int)
    requires checkIn < checkOut
    ensures ChargeFor(pricePerNight, checkIn, checkOut) == pricePerNight * (NumberOfNights(checkIn, checkOut) as real)
    ensures ChargeFor(100.0, checkIn, checkIn + 3 * MsPerDay) == 300.0
  {
    NumberOfNightsShape(checkIn, checkOut);
    assert CeilDiv(3 * MsPerDay, MsPerDay) == 3;
  }

  /** The adults (when given) and the children (missing meaning 0) fit the room. */
  predicate GuestsFit(room: Room, req: BookingRequest) {
    !(req.adults.Some? && room.capacity.adults < req.adults.value) && req.children.GetOr(0) <= room.capacity.children
  }

  /** The guests fit, and the booking built for the room passes the schema. */
  predicate FitsAndValid(room: Room, req: BookingRequest, userId: Id, clock: Clock) {
    && GuestsFit(room, req) && req.adults.Some?
    && BookingValid(NewBooking(userId, req.roomId, room.hotelId, req.checkIn, req.checkOut, req.adults.value,
                               req.children, ChargeFor(room.pricePerNight, req.checkIn, req.checkOut),
                               req.specialRequests, req.contactInfo, clock.now), StartOfDay(clock))
  }

  /** `createBooking` up to the write. In order: the room must be active; the
      availability verdict must be Available, otherwise its reason is the error; the
      adults, then the children (missing meaning 0) must fit; the booking is built
      with the caller's id, the room's hotel and the computed charge, and must pass
      the schema validators. */
  function CreateBookingOutcome(rooms: map<Id, Room>, bookings: map<Id, Booking>, req: BookingRequest,
                                userId: Id, clock: Clock): (r: Result<Booking>)
    ensures !ActiveRoom(rooms, req.roomId) ==> r == Err(RoomNotFound)
    ensures ActiveRoom(rooms, req.roomId) ==>
              var verdict := CheckRoomAvailability(rooms, bookings, req.roomId, req.checkIn, req.checkOut);
              var room := rooms[req.roomId];
              && (verdict.value.Unavailable? ==> r == Err(verdict.value.reason))
              && ((verdict.value.Available? && req.adults.Some? && room.capacity.adults < req.adults.value)
                  ==> r == Err(AdultsExceeded))
              && ((verdict.value.Available? && !(req.adults.Some? && room.capacity.adults < req.adults.value)
                   && room.capacity.children < req.children.GetOr(0))
                  ==> r == Err(ChildrenExceeded))
    ensures r.Ok? ==>
              && ActiveRoom(rooms, req.roomId)
              && CheckRoomAvailability(rooms, bookings, req.roomId, req.checkIn, req.checkOut) == Ok(Available)
              && r.value.userId == userId && r.value.roomId == req.roomId
              && r.value.hotelId == rooms[req.roomId].hotelId
              && req.adults.Some? && r.value.guests == Guests(req.adults.value, req.children.GetOr(0))
              && r.value.guests.adults <= rooms[req.roomId].capacity.adults
              && r.value.guests.children <= rooms[req.roomId].capacity.children
              && r.value.checkIn == req.checkIn && r.value.checkOut == req.checkOut
              && r.value.totalAmount == ChargeFor(rooms[req.roomId].pricePerNight, req.checkIn, req.checkOut)
              && r.value.bookingStatus == Confirmed && r.value.paymentStatus == Pending
              && BookingValid(r.value, StartOfDay(clock))
    ensures r.Ok? <==>
              && ActiveRoom(rooms, req.roomId)
              && CheckRoomAvailability(rooms, bookings, req.roomId, req.checkIn, req.checkOut) == Ok(Available)
              && FitsAndValid(rooms[req.roomId], req, userId, clock)
    ensures (ActiveRoom(rooms, req.roomId)
             && CheckRoomAvailability(rooms, bookings, req.roomId, req.checkIn, req.checkOut) == Ok(Available)
             && GuestsFit(rooms[req.roomId], req) && !FitsAndValid(rooms[req.roomId], req, userId, clock))
            ==> r == Err(BookingValidationFailed)
    ensures r.Err? ==> r.error in {RoomNotFound, RoomNotAvailable, AlreadyBooked, AdultsExceeded, ChildrenExceeded,
                                   BookingValidationFailed}
  {
    if !ActiveRoom(rooms, req.roomId) then Err(RoomNotFound)
    else
      var room := rooms[req.roomId];
      var verdict := CheckRoomAvailability(rooms, bookings, req.roomId, req.checkIn, req.checkOut);
      if verdict.Err? then Err(RoomNotFound)
      else if verdict.value.Unavailable? then Err(verdict.value.reason)
      else if req.adults.Some? && room.capacity.adults < req.adults.value then Err(AdultsExceeded)
      else if room.capacity.children < req.children.GetOr(0) then Err(ChildrenExceeded)
      else if req.adults.None? then Err(BookingValidationFailed)
      else
        var b := NewBooking(userId, req.roomId, room.hotelId, req.checkIn, req.checkOut, req.adults.value,
                            req.children, ChargeFor(room.pricePerNight, req.checkIn, req.checkOut),
                            req.specialRequests, req.contactInfo, clock.now);
        if BookingValid(b, StartOfDay(clock)) then Ok(b) else Err(BookingValidationFailed)
  }

  /** Every stored stay ends after it starts. */
  predicate WellFormed(bookings: map<Id, Booking>) {
    forall id :: id in bookings ==> bookings[id].checkIn < bookings[id].checkOut
  }

  /** No two Confirmed bookings of one room share a night. */
  predicate ConfirmedDisjoint(bookings: map<Id, Booking>) {
    forall a, b :: a in bookings && b in bookings && a != b
                   && bookings[a].roomId == bookings[b].roomId
                   && bookings[a].bookingStatus == Confirmed && bookings[b].bookingStatus == Confirmed
                   ==> !HalfOpenOverlap(bookings[a].checkIn, bookings[a].checkOut, bookings[b].checkIn, bookings[b].checkOut)
  }

  /** A booking `createBooking` stores never overlaps a Confirmed booking of its room. */
  lemma {:induction false} CreatePreservesDisjoint(rooms: map<Id, Room>, bookings: map<Id, Booking>, req: BookingRequest,
                                                   userId: Id, clock: Clock, newId: Id)
    requires newId !in bookings && WellFormed(bookings) && ConfirmedDisjoint(bookings)
    requires CreateBookingOutcome(rooms, bookings, req, userId, clock).Ok?
    ensures var b := CreateBookingOutcome(rooms, bookings, req, userId, clock).value;
            WellFormed(bookings[newId := b]) && ConfirmedDisjoint(bookings[newId := b])
  {
    AvailableMeansNoOverlap(rooms, bookings, req.roomId, req.checkIn, req.checkOut);
  }

  /** `createBooking`: stores the booking under the fresh id. */
  method CreateBooking(db: Db, req: BookingRequest, userId: Id, clock: Clock, newId: Id) returns (r: Result<Id>)
    requires newId !in db.bookings
    modifies db
    ensures r.Ok? <==> CreateBookingOutcome(old(db.rooms), old(db.bookings), req, userId, clock).Ok?
    ensures r.Err? ==> r.error == CreateBookingOutcome(old(db.rooms), old(db.bookings), req, userId, clock).error
                       && db.bookings == old(db.bookings)
    ensures r.Ok? ==> r.value == newId
                      && db.bookings == old(db.bookings)[newId := CreateBookingOutcome(old(db.rooms), old(db.bookings), req, userId, clock).value]
    ensures db.users == old(db.users) && db.hotels == old(db.hotels)
    ensures db.rooms == old(db.rooms) && db.roomOrder == old(db.roomOrder)
  {
    var outcome := CreateBookingOutcome(db.rooms, db.bookings, req, userId, clock);
    if outcome.Err? {
      return Err(outcome.error);
    }
    db.bookings := db.bookings[newId := outcome.value];
    r := Ok(newId);
  }

  // ---------------------------------------------------------------------------
  // Cancellation and status updates

  /** The ownership filter `if (!isAdmin && userId) query.userId = userId`. */
  predicate MayAct(b: Booking, userId: Option<Id>, isAdmin: bool) {
    isAdmin || !Supplied(userId) || b.userId == userId.value
  }

  const CancelWindow: int := 24 * MsPerHour

  /** `cancelBooking` up to the write: only a Confirmed booking the caller may act on
      is found; a non-admin cannot cancel when check-in is less than 24 hours away;
      then status, date and reason are set and the schema validators run again. */
  function CancelOutcome(bookings: map<Id, Booking>, bookingId: Id, userId: Option<Id>, isAdmin: bool,
                         reason: string, clock: Clock): (r: Result<Booking>)
    ensures (!(bookingId in bookings && bookings[bookingId].bookingStatus == Confirmed
               && MayAct(bookings[bookingId], userId, isAdmin)))
            ==> r == Err(NotCancellable)
    ensures (bookingId in bookings && bookings[bookingId].bookingStatus == Confirmed
             && MayAct(bookings[bookingId], userId, isAdmin) && !isAdmin
             && bookings[bookingId].checkIn - clock.now < CancelWindow)
            ==> r == Err(TooLateToCancel)
    ensures r.Ok? ==> bookingId in bookings && bookings[bookingId].bookingStatus == Confirmed
                      && MayAct(bookings[bookingId], userId, isAdmin)
    ensures r.Ok? && !isAdmin ==> bookings[bookingId].checkIn >= clock.now + CancelWindow
    ensures r.Ok? ==> r.value == bookings[bookingId].(bookingStatus := Cancelled,
                                                      cancellationDate := Some(clock.now),
                                                      cancellationReason := Some(reason))
    ensures r.Err? ==> r.error in {NotCancellable, TooLateToCancel, BookingValidationFailed}
  {
    if !(bookingId in bookings && bookings[bookingId].bookingStatus == Confirmed
         && MayAct(bookings[bookingId], userId, isAdmin)) then Err(NotCancellable)
    else
      var b := bookings[bookingId];
      if b.checkIn - clock.now < CancelWindow && !isAdmin then Err(TooLateToCancel)
      else
        var cancelled := b.(bookingStatus := Cancelled, cancellationDate := Some(clock.now),
                            cancellationReason := Some(reason));
        if BookingValid(cancelled, StartOfDay(clock)) then Ok(cancelled) else Err(BookingValidationFailed)
  }

  /** A second cancellation of the same booking always fails, whoever asks. */
  lemma CancelTwiceFails(bookings: map<Id, Booking>, bookingId: Id, userId: Option<Id>, isAdmin: bool,
                         reason: string, clock: Clock, userId2: Option<Id>, isAdmin2: bool, reason2: string, clock2: Clock)
    requires CancelOutcome(bookings, bookingId, userId, isAdmin, reason, clock).Ok?
    ensures var after := bookings[bookingId := CancelOutcome(bookings, bookingId, userId, isAdmin, reason, clock).value];
            CancelOutcome(after, bookingId, userId2, isAdmin2, reason2, clock2) == Err(NotCancellable)
  {
  }

  /** A non-admin owner who cancels a stored, valid booking at least 24 hours
      before check-in succeeds. */
  lemma {:induction false} TimelyOwnerCancelSucceeds(bookings: map<Id, Booking>, bookingId: Id, reason: string, clock: Clock,
                                                     createdDay: int)
    requires bookingId in bookings && bookings[bookingId].bookingStatus == Confirmed
    requires BookingValid(bookings[bookingId], createdDay)
    requires bookings[bookingId].checkIn >= clock.now + CancelWindow
    ensures CancelOutcome(bookings, bookingId, Some(bookings[bookingId].userId), false, reason, clock).Ok?
  {
    assert StartOfDay(clock) <= clock.now;
  }

  /** An admin cancelling a booking whose check-in lies before today gets past the
      24-hour rule but is stopped by the check-in validator when the booking is saved. */
  lemma AdminCancelOfPastStayFailsValidation(bookings: map<Id, Booking>, bookingId: Id, reason: string, clock: Clock)
    requires bookingId in bookings && bookings[bookingId].bookingStatus == Confirmed
    requires bookings[bookingId].checkIn < StartOfDay(clock)
    ensures CancelOutcome(bookings, bookingId, None, true, reason, clock) == Err(BookingValidationFailed)
  {
  }

  /** Cancelling keeps stays well-formed and Confirmed bookings disjoint. */
  lemma CancelPreservesDisjoint(bookings: map<Id, Booking>, bookingId: Id, userId: Option<Id>, isAdmin: bool,
                                reason: string, clock: Clock)
    requires WellFormed(bookings) && ConfirmedDisjoint(bookings)
    requires CancelOutcome(bookings, bookingId, userId, isAdmin, reason, clock).Ok?
    ensures var after := bookings[bookingId := CancelOutcome(bookings, bookingId, userId, isAdmin, reason, clock).value];
            WellFormed(after) && ConfirmedDisjoint(after)
  {
  }

  /** `cancelBooking`: assigns the three fields on the fetched booking and saves it. */
  method CancelBooking(db: Db, bookingId: Id, userId: Option<Id>, isAdmin: bool, reason: string, clock: Clock)
    returns (r: Result<Booking>)
    modifies db
    ensures r == CancelOutcome(old(db.bookings), bookingId, userId, isAdmin, reason, clock)
    ensures db.bookings == if r.Ok? then old(db.bookings)[bookingId := r.value] else old(db.bookings)
    ensures db.users == old(db.users) && db.hotels == old(db.hotels)
    ensures db.rooms == old(db.rooms) && db.roomOrder == old(db.roomOrder)
  {
    if !(bookingId in db.bookings && db.bookings[bookingId].bookingStatus == Confirmed
         && MayAct(db.bookings[bookingId], userId, isAdmin)) {
      return Err(NotCancellable);
    }
    var booking := db.bookings[bookingId];
    if booking.checkIn - clock.now < CancelWindow && !isAdmin {
      return Err(TooLateToCancel);
    }
    booking := booking.(bookingStatus := Cancelled);
    booking := booking.(cancellationDate := Some(clock.now));
    booking := booking.(cancellationReason := Some(reason));
    if !BookingValid(booking, StartOfDay(clock)) {
      return Err(BookingValidationFailed);
    }
    db.bookings := db.bookings[bookingId := booking];
    r := Ok(booking);
  }

  /** `updateBookingStatus`: the value is checked against the enumeration before the
      lookup; only the status changes. */
  function UpdateBookingStatusOutcome(bookings: map<Id, Booking>, bookingId: Id, status: string,
                                      userId: Option<Id>, isAdmin: bool): (r: Result<Booking>)
    ensures ParseBookingStatus(status).None? ==> r == Err(InvalidBookingStatus)
    ensures (ParseBookingStatus(status).Some? && !(bookingId in bookings && MayAct(bookings[bookingId], userId, isAdmin)))
            ==> r == Err(BookingNotFound)
    ensures r.Ok? ==> bookingId in bookings && MayAct(bookings[bookingId], userId, isAdmin)
                      && BookingStatusName(r.value.bookingStatus) == status
                      && r.value == bookings[bookingId].(bookingStatus := r.value.bookingStatus)
    ensures r.Ok? <==> ParseBookingStatus(status).Some? && bookingId in bookings && MayAct(bookings[bookingId], userId, isAdmin)
    ensures r.Err? ==> r.error in {InvalidBookingStatus, BookingNotFound}
  {
    match ParseBookingStatus(status)
    case None => Err(InvalidBookingStatus)
    case Some(s) =>
      if bookingId in bookings && MayAct(bookings[bookingId], userId, isAdmin) then
        Ok(bookings[bookingId].(bookingStatus := s))
      else Err(BookingNotFound)
  }

  /** Setting a Cancelled booking back to Confirmed runs no availability check:
      two stays of one room that share nights can both end up Confirmed. */
  lemma UpdateStatusCanBreakDisjointness()
    ensures var c := ContactInfo("1", "a@b.c");
            var first := Booking("u", "r", "h", 0, 2 * MsPerDay, Guests(1, 0), 200.0, Pending, Confirmed,
                                 None, c, None, None, 0);
            var second := first.(bookingStatus := Cancelled);
            var bookings := map["b1" := first, "b2" := second];
            && ConfirmedDisjoint(bookings)
            && UpdateBookingStatusOutcome(bookings, "b2", "Confirmed", None, true).Ok?
            && !ConfirmedDisjoint(bookings["b2" := UpdateBookingStatusOutcome(bookings, "b2", "Confirmed", None, true).value])
  {
    var c := ContactInfo("1", "a@b.c");
    var first := Booking("u", "r", "h", 0, 2 * MsPerDay, Guests(1, 0), 200.0, Pending, Confirmed,
                         None, c, None, None, 0);
    var second := first.(bookingStatus := Cancelled);
    var bookings := map["b1" := first, "b2" := second];
    assert forall id :: id in bookings && bookings[id].bookingStatus == Confirmed ==> id == "b1";
    assert ParseBookingStatus("Confirmed") == Some(Confirmed);
    var after := bookings["b2" := first];
    assert UpdateBookingStatusOutcome(bookings, "b2", "Confirmed", None, true).value == first;
    assert after["b1"] == first && after["b2"] == first;
    assert HalfOpenOverlap(first.checkIn, first.checkOut, first.checkIn, first.checkOut);
  }

  /** `updatePaymentStatus`: admins only, checked before the value; then the value
      is checked against the enumeration; then the booking must exist. Only the
      payment status changes. */
  function UpdatePaymentStatusOutcome(bookings: map<Id, Booking>, bookingId: Id, paymentStatus: string,
                                      isAdmin: bool): (r: Result<Booking>)
    ensures !isAdmin ==> r == Err(AdminOnlyPayment)
    ensures isAdmin && ParsePaymentStatus(paymentStatus).None? ==> r == Err(InvalidPaymentStatus)
    ensures isAdmin && ParsePaymentStatus(paymentStatus).Some? && bookingId !in bookings ==> r == Err(BookingNotFound)
    ensures r.Ok? ==> bookingId in bookings && PaymentStatusName(r.value.paymentStatus) == paymentStatus
                      && r.value == bookings[bookingId].(paymentStatus := r.value.paymentStatus)
    ensures r.Ok? <==> isAdmin && ParsePaymentStatus(paymentStatus).Some? && bookingId in bookings
    ensures r.Err? ==> r.error in {AdminOnlyPayment, InvalidPaymentStatus, BookingNotFound}
  {
    if !isAdmin then Err(AdminOnlyPayment)
    else
      match ParsePaymentStatus(paymentStatus)
      case None => Err(InvalidPaymentStatus)
      case Some(p) => if bookingId in bookings then Ok(bookings[bookingId].(paymentStatus := p)) else Err(BookingNotFound)
  }

  /** Payment updates leave every booking status alone, so they keep Confirmed
      bookings disjoint. */
  lemma PaymentUpdatePreservesDisjoint(bookings: map<Id, Booking>, bookingId: Id, paymentStatus: string, isAdmin: bool)
    requires ConfirmedDisjoint(bookings)
    requires UpdatePaymentStatusOutcome(bookings, bookingId, paymentStatus, isAdmin).Ok?
    ensures ConfirmedDisjoint(bookings[bookingId := UpdatePaymentStatusOutcome(bookings, bookingId, paymentStatus, isAdmin).value])
  {
  }

  /** `updateBookingStatus` on the store. */
  method UpdateBookingStatus(db: Db, bookingId: Id, status: string, userId: Option<Id>, isAdmin: bool)
    returns (r: Result<Booking>)
    modifies db
    ensures r == UpdateBookingStatusOutcome(old(db.bookings), bookingId, status, userId, isAdmin)
    ensures db.bookings == if r.Ok? then old(db.bookings)[bookingId := r.value] else old(db.bookings)
    ensures db.users == old(db.users) && db.hotels == old(db.hotels)
    ensures db.rooms == old(db.rooms) && db.roomOrder == old(db.roomOrder)
  {
    r := UpdateBookingStatusOutcome(db.bookings, bookingId, status, userId, isAdmin);
    if r.Ok? {
      db.bookings := db.bookings[bookingId := r.value];
    }
  }

  /** `updatePaymentStatus` on the store. */
  method UpdatePaymentStatus(db: Db, bookingId: Id, paymentStatus: string, isAdmin: bool) returns (r: Result<Booking>)
    modifies db
    ensures r == UpdatePaymentStatusOutcome(old(db.bookings), bookingId, paymentStatus, isAdmin)
    ensures db.bookings == if r.Ok? then old(db.bookings)[bookingId := r.value] else old(db.bookings)
    ensures db.users == old(db.users) && db.hotels == old(db.hotels)
    ensures db.rooms == old(db.rooms) && db.roomOrder == old(db.roomOrder)
  {
    r := UpdatePaymentStatusOutcome(db.bookings, bookingId, paymentStatus, isAdmin);
    if r.Ok? {
      db.bookings := db.bookings[bookingId := r.value];
    }
  }

  // ---------------------------------------------------------------------------
  // Reads

  /** `getBookingById`: a non-admin who gives a user id sees only their own bookings. */
  function GetBookingById(bookings: map<Id, Booking>, bookingId: Id, userId: Option<Id>, isAdmin: bool): (r: Result<Booking>)
    ensures r.Ok? <==> bookingId in bookings && MayAct(bookings[bookingId], userId, isAdmin)
    ensures r.Ok? ==> r.value == bookings[bookingId]
    ensures r.Ok? && !isAdmin && Supplied(userId) ==> r.value.userId == userId.value
    ensures r.Err? ==> r.error == BookingNotFound
  {
    if bookingId in bookings && MayAct(bookings[bookingId], userId, isAdmin) then Ok(bookings[bookingId])
    else Err(BookingNotFound)
  }

  function CreatedAtKey(bookings: map<Id, Booking>, ids: set<Id>): map<Id, int>
    requires ids <= bookings.Keys
  {
    map id | id in ids :: bookings[id].createdAt
  }

  /** A status filter given as text matches the booking's status name. */
  predicate StatusIs(s: BookingStatus, filter: Option<string>) {
    !Supplied(filter) || BookingStatusName(s) == filter.value
  }

  /** The query of `getUserBookings`. */
  predicate UserBookingMatches(b: Booking, userId: Id, status: Option<string>) {
    b.userId == userId && StatusIs(b.bookingStatus, status)
  }

  function UserMatches(bookings: map<Id, Booking>, userId: Id, status: Option<string>): set<Id> {
    set id | id in bookings && UserBookingMatches(bookings[id], userId, status)
  }

  /** `getUserBookings`: the caller's bookings (optionally of one status), newest
      first, one page of them, and the envelope over all of them. */
  method GetUserBookings(bookings: map<Id, Booking>, userId: Id, page: int, limit: int, status: Option<string>)
    returns (items: seq<Id>, info: PageInfo)
    requires page >= 1 && limit >= 1
    ensures info == Envelope(page, limit, |UserMatches(bookings, userId, status)|)
    ensures |items| <= limit
    ensures forall i :: 0 <= i < |items| ==> items[i] in bookings && UserBookingMatches(bookings[items[i]], userId, status)
    ensures exists all :: IsOrdering(all, UserMatches(bookings, userId, status),
                                     CreatedAtKey(bookings, UserMatches(bookings, userId, status)), true)
                          && items == PageOf(all, page, limit)
  {
    var ids := UserMatches(bookings, userId, status);
    items := SortedPage(ids, CreatedAtKey(bookings, ids), true, page, limit);
    info := Envelope(page, limit, |ids|);
  }

  /** The optional filters of `getAllBookings`; a filter is applied when it is truthy. */
  datatype BookingFilter = BookingFilter(
    status: Option<string>,
    paymentStatus: Option<string>,
    hotelId: Option<Id>,
    userId: Option<Id>,
    checkInFrom: Option<int>,
    checkInTo: Option<int>)

  predicate FilterMatches(b: Booking, f: BookingFilter) {
    && StatusIs(b.bookingStatus, f.status)
    && (Supplied(f.paymentStatus) ==> PaymentStatusName(b.paymentStatus) == f.paymentStatus.value)
    && (Supplied(f.hotelId) ==> b.hotelId == f.hotelId.value)
    && (Supplied(f.userId) ==> b.userId == f.userId.value)
    && (f.checkInFrom.Some? ==> b.checkIn >= f.checkInFrom.value)
    && (f.checkInTo.Some? ==> b.checkIn <= f.checkInTo.value)
  }

  function FilterMatchesAll(bookings: map<Id, Booking>, f: BookingFilter): set<Id> {
    set id | id in bookings && FilterMatches(bookings[id], f)
  }

  /** With no filter given every booking is listed. */
  lemma EmptyFilterMatchesAll(bookings: map<Id, Booking>)
    ensures FilterMatchesAll(bookings, BookingFilter(None, None, None, None, None, None)) == bookings.Keys
  {
  }

  /** `getAllBookings`: the filtered bookings, newest first, one page, and the envelope. */
  method GetAllBookings(bookings: map<Id, Booking>, f: BookingFilter, page: int, limit: int)
    returns (items: seq<Id>, info: PageInfo)
    requires page >= 1 && limit >= 1
    ensures info == Envelope(page, limit, |FilterMatchesAll(bookings, f)|)
    ensures |items| <= limit
    ensures forall i :: 0 <= i < |items| ==> items[i] in bookings && FilterMatches(bookings[items[i]], f)
    ensures exists all :: IsOrdering(all, FilterMatchesAll(bookings, f), CreatedAtKey(bookings, FilterMatchesAll(bookings, f)), true)
                          && items == PageOf(all, page, limit)
  {
    var ids := FilterMatchesAll(bookings, f);
    items := SortedPage(ids, CreatedAtKey(bookings, ids), true, page, limit);
    info := Envelope(page, limit, |ids|);
  }

  /** The query of `getUpcomingBookings`: Confirmed, checking in between now and
      `days` days from now, owned by the caller unless they are an admin. */
  predicate Upcoming(b: Booking, userId: Option<Id>, isAdmin: bool, days: int, now: int) {
    && b.bookingStatus == Confirmed
    && now <= b.checkIn <= now + days * MsPerDay
    && MayAct(b, userId, isAdmin)
  }

  function UpcomingIds(bookings: map<Id, Booking>, userId: Option<Id>, isAdmin: bool, days: int, now: int): set<Id> {
    set id | id in bookings && Upcoming(bookings[id], userId, isAdmin, days, now)
  }

  function CheckInKey(bookings: map<Id, Booking>, ids: set<Id>): map<Id, int>
    requires ids <= bookings.Keys
  {
    map id | id in ids :: bookings[id].checkIn
  }

  /** `getUpcomingBookings`: every upcoming booking, earliest check-in first. */
  method GetUpcomingBookings(bookings: map<Id, Booking>, userId: Option<Id>, isAdmin: bool, days: int, clock: Clock)
    returns (upcoming: seq<Id>)
    ensures IsOrdering(upcoming, UpcomingIds(bookings, userId, isAdmin, days, clock.now),
                       CheckInKey(bookings, UpcomingIds(bookings, userId, isAdmin, days, clock.now)), false)
    ensures forall i :: 0 <= i < |upcoming| ==>
              upcoming[i] in bookings && Upcoming(bookings[upcoming[i]], userId, isAdmin, days, clock.now)
  {
    var ids := UpcomingIds(bookings, userId, isAdmin, days, clock.now);
    upcoming := SortIds(ids, CheckInKey(bookings, ids), false);
  }
}
