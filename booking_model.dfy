/** The Booking record: its fields, the enumerated payment and booking statuses
    with their defaults, the schema constraints checked when a booking is saved,
    and the derived number of nights. */
module BookingModel {
  import opened Common
  import opened Time

  datatype PaymentStatus = Pending | Paid | Failed | Refunded
  datatype BookingStatus = Confirmed | Cancelled | Completed | NoShow

  function PaymentStatusName(p: PaymentStatus): (s: string)
    ensures ParsePaymentStatus(s) == Some(p)
  {
    match p
    case Pending => "Pending"
    case Paid => "Paid"
    case Failed => "Failed"
    case Refunded => "Refunded"
  }

  /** The enum check on a payment status given as text. */
  function ParsePaymentStatus(s: string): (r: Option<PaymentStatus>)
    ensures r.Some? <==> s in {"Pending", "Paid", "Failed", "Refunded"}
  {
    if s == "Pending" then Some(Pending)
    else if s == "Paid" then Some(Paid)
    else if s == "Failed" then Some(Failed)
    else if s == "Refunded" then Some(Refunded)
    else None
  }

  function BookingStatusName(b: BookingStatus): (s: string)
    ensures ParseBookingStatus(s) == Some(b)
  {
    match b
    case Confirmed => "Confirmed"
    case Cancelled => "Cancelled"
    case Completed => "Completed"
    case NoShow => "No Show"
  }

  /** The enum check on a booking status given as text. */
  function ParseBookingStatus(s: string): (r: Option<BookingStatus>)
    ensures r.Some? <==> s in {"Confirmed", "Cancelled", "Completed", "No Show"}
  {
    if s == "Confirmed" then Some(Confirmed)
    else if s == "Cancelled" then Some(Cancelled)
    else if s == "Completed" then Some(Completed)
    else if s == "No Show" then Some(NoShow)
    else None
  }

  /** A status parses back to the value whose name it is, and to no other. */
  lemma ParseIsInverseOfName(s: string)
    ensures ParsePaymentStatus(s).Some? ==> PaymentStatusName(ParsePaymentStatus(s).value) == s
    ensures ParseBookingStatus(s).Some? ==> BookingStatusName(ParseBookingStatus(s).value) == s
  {
  }

  datatype Guests = Guests(adults: int, children: int)
  datatype ContactInfo = ContactInfo(phone: string, email: string)

  /** A stored booking. Dates are milliseconds; `createdAt` is the timestamp the
      schema adds. */
  datatype Booking = Booking(
    userId: Id,
    roomId: Id,
    hotelId: Id,
    checkIn: int,
    checkOut: int,
    guests: Guests,
    totalAmount: real,
    paymentStatus: PaymentStatus,
    bookingStatus: BookingStatus,
    specialRequests: Option<string>,
    contactInfo: ContactInfo,
    cancellationDate: Option<int>,
    cancellationReason: Option<string>,
    createdAt: int)

  const MaxSpecialRequests: int := 500

  /** The schema validators that `save()` runs: required references and contact
      fields, check-in not before the start of today, check-out after check-in,
      at least one adult, no negative child count or amount, and at most 500
      characters of special requests. */
  predicate BookingValid(b: Booking, todayStart: int) {
    && b.userId != "" && b.roomId != "" && b.hotelId != ""
    && b.checkIn >= todayStart
    && b.checkOut > b.checkIn
    && b.guests.adults >= 1
    && b.guests.children >= 0
    && b.totalAmount >= 0.0
    && (b.specialRequests.Some? ==> |b.specialRequests.value| <= MaxSpecialRequests)
    && b.contactInfo.phone != "" && b.contactInfo.email != ""
  }

  /** `new Booking({...})`: the fields given, with the schema defaults filled in
      (no children means 0, payment Pending, status Confirmed, no cancellation). */
  function NewBooking(userId: Id, roomId: Id, hotelId: Id, checkIn: int, checkOut: int, adults: int,
                      children: Option<int>, totalAmount: real, specialRequests: Option<string>,
                      contactInfo: ContactInfo, now: int): (b: Booking)
    ensures b.guests == Guests(adults, children.GetOr(0))
    ensures b.paymentStatus == Pending && b.bookingStatus == Confirmed
    ensures b.cancellationDate == None && b.cancellationReason == None
    ensures b.userId == userId && b.roomId == roomId && b.hotelId == hotelId
    ensures b.checkIn == checkIn && b.checkOut == checkOut && b.totalAmount == totalAmount
  {
    Booking(userId, roomId, hotelId, checkIn, checkOut, Guests(adults, children.GetOr(0)), totalAmount,
            Pending, Confirmed, specialRequests, contactInfo, None, None, now)
  }

  /** The `numberOfNights` virtual: whole days between the two dates, rounded up. */
  function NumberOfNights(checkIn: int, checkOut: int): (n: int)
    ensures n >= 0
    ensures (n - 1) * MsPerDay < Abs(checkOut - checkIn) <= n * MsPerDay
  {
    CeilDiv(Abs(checkOut - checkIn), MsPerDay)
  }

  /** The number of nights depends only on the distance between the dates, and a
      check-out after the check-in always makes at least one night. */
  lemma NumberOfNightsShape(checkIn: int, checkOut: int)
    ensures NumberOfNights(checkIn, checkOut) == NumberOfNights(checkOut, checkIn)
    ensures checkOut > checkIn ==> NumberOfNights(checkIn, checkOut) >= 1
    ensures checkOut > checkIn ==> NumberOfNights(checkIn, checkOut) == CeilDiv(checkOut - checkIn, MsPerDay)
  {
  }

  /** Three days at 100 a night: 1 March 2025 00:00 UTC to 4 March 2025 00:00 UTC. */
  lemma ThreeNightsExample()
    ensures NumberOfNights(1740787200000, 1741046400000) == 3
  {
  }
}
