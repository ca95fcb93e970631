# Hotel booking engine: a Dafny model

This project models the core of a hotel booking web application (an Express/Mongoose
back end and a React/Redux front end). The core is:

- a store of hotels, rooms, bookings and users;
- the booking lifecycle: create, cancel, status and payment updates, and the list reads;
- the availability check and the hotel price-range synchroniser;
- the ownership and administrator gates;
- the schema constraints and the request validation rules;
- the administrator's user operations;
- the client-side reducer that holds a user's booking list.

The store is `Store.Db`, a class with one map per collection (id to record). The rooms
collection also keeps its natural order, `roomOrder`, because
`getAvailableRooms` answers in that order.

Each service operation becomes two members:

- a pure `…Outcome` function. It fixes the order of the checks, the error messages and the record written. Mongoose's validation and duplicate-key messages are reduced to their fixed prefix.
- a method that `modifies` the store. Its `ensures` tie the answer and the new state to that function of the old state.

Each method runs atomically, so check-then-insert has no race. Time is integer
milliseconds. The wall clock arrives as a `Time.Clock` (`now` plus the server's UTC
offset), because `setHours(0, 0, 0, 0)` is local midnight. Prices and ratings are
exact `real`s. These stand in as parameters:

- token signing and verification (`verify`);
- bcrypt (`hash`);
- express-validator's `isEmail` and `isMongoId`;
- fresh document ids (`newId`).

Mongoose behaviour that the model keeps:

- `save()` runs the schema validators before the pre-save hook. A user's new password is therefore checked in plaintext, then hashed.
- `findByIdAndUpdate` applies setters (trim, lower-case) and casts. It runs neither validators nor hooks.
- unique indexes reject duplicates with "E11000 duplicate key error".
- `required` rejects the empty string.

The module layout follows the source files:

- `booking_model`, `room_model`, `hotel_model` and `user_model` for the schemas;
- `booking_service`, `room_service`, `hotel_service` and `auth_service` for the services;
- `auth_middleware` and `validation` for the middleware;
- `user_controller` and `booking_slice` for the controller and the reducer.

The helper modules are `common`, `time`, `jstext` (JavaScript whitespace, trim, split,
lower-case) and `query` (ordering, page slice, pagination envelope).

Where the repository's written description and its code differ, the model follows the code:

- The availability check throws "Room not found" for a missing or inactive room. It does not return an "unavailable" verdict.
- `createBooking` has no explicit check for zero or negative nights. A check-out not after check-in is rejected by the booking schema when the booking is saved ("Booking validation failed").
- The hotel price range equals the min/max of the active room prices only right after a room operation recomputes it:
  - `createHotel` and `updateHotel` store whatever range the body gives;
  - `deleteHotel` does not recompute the range.
  `RoomService.InSync` is therefore proved per hotel after each room operation. It is not a store-wide invariant.
- The schema field is `type`. The Dafny field is named `roomType`, because `type` is a keyword.

## Model

| member | source | states |
|---|---|---|
| Time.CeilDiv | backend/models/Booking.js:91-94 | `Math.ceil(a / d)` on integers: the least q with a ≤ d·q |
| Time.StartOfDay | backend/models/Booking.js:22-27 | `setHours(0,0,0,0)`: the local midnight at or before now, less than a day before it |
| BookingModel.ParsePaymentStatus | backend/models/Booking.js:56-60 | a payment status is accepted iff it is one of Pending, Paid, Failed, Refunded |
| BookingModel.ParseBookingStatus | backend/models/Booking.js:61-65 | a booking status is accepted iff it is one of Confirmed, Cancelled, Completed, No Show |
| BookingModel.PaymentStatusName | backend/models/Booking.js:56-60 | every enum value's name parses back to it |
| BookingModel.BookingStatusName | backend/models/Booking.js:61-65 | every enum value's name parses back to it |
| BookingModel.ParseIsInverseOfName | backend/models/Booking.js:56-65 | an accepted status text is the name of the value it parses to |
| BookingModel.NewBooking | backend/models/Booking.js:39-65 | a new booking has the given fields, 0 children when none are given, payment Pending, status Confirmed and no cancellation |
| BookingModel.NumberOfNights | backend/models/Booking.js:91-94 | never negative; the least whole number of days covering \|checkOut − checkIn\| |
| BookingModel.NumberOfNightsShape | backend/models/Booking.js:91-94 | symmetric in the two dates; at least 1, and ceil((out−in)/day), when out > in |
| BookingModel.ThreeNightsExample | backend/models/Booking.js:91-94 | 1 March to 4 March 2025 is 3 nights |
| RoomModel.FromInput | backend/models/Room.js:9-63 | the room number is trimmed, children default to 0, isAvailable and isActive default to true |
| RoomModel.BuildRoom | backend/models/Room.js:3-66 | a room is stored iff the required paths are present and the validators (enums, price ≥ 0, adults ≥ 1, children ≥ 0, size ≥ 0, description ≤ 500) pass; else "Room validation failed" |
| RoomModel.BuildDefaults | backend/models/Room.js:56-63 | omitted flags default to true, omitted children to 0; setting isAvailable leaves everything else unchanged |
| RoomModel.BuildRejectsBadTypeOrPrice | backend/models/Room.js:14-23 | a missing or unknown type, or a negative price, is never stored |
| RoomModel.InsertKeepsUnique | backend/models/Room.js:69 | inserting a room whose (hotel, number) pair is not taken keeps the unique index |
| RoomModel.UpdateKeepsUnique | backend/models/Room.js:69 | an update keeping hotel and number keeps the unique index |
| HotelModel.BuildHotel | backend/models/Hotel.js:3-86 | a hotel is stored iff both price bounds, a trimmed name of 1..100, a complete location, a description of 1..1000, enum amenities, an owner and any given rating average within 0..5 are present; rating, rooms and the active flag are taken from the input when given |
| HotelModel.BuildHotelDefaults | backend/models/Hotel.js:43-86 | rating, rooms and the active flag left out default to (0, 0), no rooms and active; a body with `isActive: false` builds an inactive hotel |
| HotelModel.BuildRejects | backend/models/Hotel.js:45-83 | a hotel missing a price bound or an owner, or with an unknown amenity, is never stored |
| UserModel.Role | backend/models/User.js:45-47 | role is "admin" iff isAdmin, else "user" |
| UserModel.PhoneMatches | backend/models/User.js:23-27 | the pattern `^\+?[\d\s-()]+$`: an optional "+" then one or more digits, spaces, "-", "(" or ")" |
| UserModel.PhoneExamples | backend/models/User.js:23-27 | "+1 (555) 123-4567" matches; "1+2" does not |
| UserModel.NewUser | backend/models/User.js:5-39 | a new user has a trimmed name and a lower-cased e-mail, is active and has no avatar |
| UserModel.Saved | backend/models/User.js:53-65 | save succeeds iff the validators pass; the hash replaces the password exactly when it was modified; nothing else changes |
| UserModel.UserDocument.Save | backend/models/User.js:53-65 | the document after save is the saved user with the modified mark cleared; the document is unchanged on failure |
| UserModel.UserDocument.SetName | backend/models/User.js:5-10 | assigning a name stores it trimmed |
| UserModel.UserDocument.SetEmail | backend/models/User.js:11-17 | assigning an e-mail stores it lower-cased |
| UserModel.UserDocument.SetPassword | backend/models/User.js:53-57 | assigning a password marks it modified |
| UserModel.SaveWithoutPasswordChangeKeepsHash | backend/models/User.js:53-57 | re-saving without touching the password keeps the stored hash |
| UserModel.SavedPasswordMatches | backend/models/User.js:68-70 | after save the plaintext password matches the hash, and a password with another hash does not |
| UserModel.StoreKeepsUniqueEmails | backend/models/User.js:11-17 | storing a user whose e-mail no other user has keeps e-mails unique |
| UserModel.ToObject | backend/models/User.js:73-77 | the object form carries the `role` virtual |
| UserModel.ToJson | backend/models/User.js:73-77 | the JSON form has every key of the object form except passwordHash, with the same values |
| UserModel.ToJsonHidesHash | backend/models/User.js:73-77 | no key of the JSON form is passwordHash, for every user |
| Query.Envelope | backend/services/bookingService.js:115-123 | totalPages = ceil(total / limit); current page and total are reported as given |
| Query.EnvelopeNeighbours | backend/services/bookingService.js:115-123 | hasNext iff records remain after this page; hasPrev iff the skip is positive |
| Query.PageOf | backend/services/bookingService.js:99-111 | skip/limit: the page is the ordered list from (page−1)·limit, at most limit long |
| Query.PageNonEmptyWithinTotal | backend/services/bookingService.js:99-123 | a page holds records iff its number is at most totalPages |
| Query.SortIds | backend/services/bookingService.js:106-111 | the result lists each matching id once and is ordered by the sort key |
| Query.SortedPage | backend/services/bookingService.js:106-111 | `.sort().skip().limit()`: at most limit ids, all matching, forming the page of some ordering of the matches by the key |
| RoomService.OverlapQueryIsHalfOpen | backend/services/roomService.js:174-191 | for stays with in < out, the three-disjunct query equals half-open overlap |
| RoomService.TouchingStaysDoNotConflict | backend/services/roomService.js:174-191 | a stay that ends when another begins is no conflict |
| RoomService.CheckRoomAvailability | backend/services/roomService.js:162-205 | "Room not found" iff the room is missing or inactive; a switched-off room is "Room is not available"; otherwise available iff no Confirmed booking of the room overlaps, else the conflicts are returned |
| RoomService.AvailableMeansNoOverlap | backend/services/roomService.js:174-201 | an Available verdict means no Confirmed booking of the room overlaps half-open |
| RoomService.NoOverlapMeansAvailable | backend/services/roomService.js:174-201 | an active, available room with no overlapping Confirmed booking is Available |
| RoomService.ActivePricesMembers | backend/services/roomService.js:243-250 | the prices collected are exactly those of the hotel's active rooms |
| RoomService.ActivePricesFrame | backend/services/roomService.js:243-250 | the prices depend only on the hotel's active rooms and their prices |
| RoomService.MinOf | backend/services/roomService.js:251-255 | `Math.min(...prices)`: an element no greater than any other |
| RoomService.MaxOf | backend/services/roomService.js:251-255 | `Math.max(...prices)`: an element no less than any other |
| RoomService.PriceRangeOf | backend/services/roomService.js:241-264 | (0, 0) with no active room, and min ≤ max |
| RoomService.PriceRangeBounds | backend/services/roomService.js:241-264 | every active price lies in the range, and both bounds are prices of active rooms |
| RoomService.Resynced | backend/services/roomService.js:241-264 | only the given hotel's range changes |
| RoomService.UpdateHotelPriceRange | backend/services/roomService.js:241-264 | the hotel's range becomes that of its active rooms; nothing else changes |
| RoomService.GetRoomById | backend/services/roomService.js:55-68 | a room is returned iff it exists and is active, else "Room not found" |
| RoomService.OfferedAmongMembers | backend/services/roomService.js:208-238 | a room is offered iff it is the hotel's, active, available, fits the truthy guest counts and passes the availability check |
| RoomService.GetAvailableRooms | backend/services/roomService.js:208-238 | the loop returns the offered rooms in collection order |
| RoomService.CreateRoomOutcome | backend/services/roomService.js:71-107 | a missing or inactive hotel gives "Hotel not found"; a number used by an active room of the hotel gives the duplicate error; a stored room is valid and its number is free in the index; it succeeds iff the hotel is active, the number is free among active rooms, the room builds and the index has the number free; the errors are just these four |
| RoomService.NumberOfDeletedRoomIsRefusedByIndex | backend/models/Room.js:69 | reusing the number of a soft-deleted room passes the service check but fails with a duplicate key |
| RoomService.CreateRoom | backend/services/roomService.js:71-107 | on success the room is stored, its id appended to the hotel's rooms and the range recomputed; on error nothing changes |
| RoomService.PatchKeepsRoomValid | backend/services/roomService.js:110-131 | a validated update keeps a valid room valid, its hotel and its active flag |
| RoomService.UpdateRoomOutcome | backend/services/roomService.js:110-131 | validation errors first, then "Room not found" for an inactive or missing room; the result is the patched room; it succeeds iff the patch is valid, the room is active and no other room of the hotel has the new number, else "Room not found", the validation error or the duplicate key |
| RoomService.UpdateRoomAsWrittenLeavesStaleRange | backend/services/roomService.js:123-125 | as written, lowering a price to 0 leaves a stale range (see Findings) |
| RoomService.UpdateRoomKeepsRangeInSync | backend/services/roomService.js:123-125 | recomputing whenever a price is given keeps every hotel's range in sync |
| RoomService.ApplyRoomUpdate | backend/services/roomService.js:110-131 | stores the patched room and recomputes its hotel's range exactly when the given condition holds |
| RoomService.UpdateRoom | backend/services/roomService.js:110-131 | as written: stores the patched room and recomputes its hotel's range only when the new price is truthy (given and not 0) |
| RoomService.UpdateRoomIntended | backend/services/roomService.js:123-125 | as intended: recomputes the range whenever a price is given, which keeps ranges in sync (see Findings) |
| RoomService.DeleteRoom | backend/services/roomService.js:134-159 | soft-deletes the room, removes its id from the hotel's list and recomputes the range; "Room not found" otherwise |
| RoomService.DeletedRoomLeavesHotel | backend/services/roomService.js:136-153 | after deletion the id is not in the hotel's list and the room no longer counts as active |
| RoomService.UpdateRoomAvailability | backend/services/roomService.js:294-310 | only isAvailable of an active room changes; hotels are untouched |
| RoomService.AvailabilityFlagKeepsRangeInSync | backend/services/roomService.js:294-310 | the availability flag does not affect the price range |
| BookingService.ChargeIsPriceTimesNights | backend/services/bookingService.js:38-41 | totalAmount = price × nights; 3 days at 100 is 300 |
| BookingService.CreateBookingOutcome | backend/services/bookingService.js:8-69 | order of checks: room lookup, verdict (its reason as the error), adults, children (missing = 0), schema; a stored booking carries the caller, the room's hotel, the charge, Confirmed and Pending; it succeeds iff the room is active, the verdict is Available, the guests fit and the built booking passes the schema; the errors are the six messages of these checks |
| BookingService.CreatePreservesDisjoint | backend/services/bookingService.js:19-54 | creation keeps Confirmed bookings of a room pairwise non-overlapping |
| BookingService.CreateBooking | backend/services/bookingService.js:8-69 | stores exactly the outcome's booking under the new id, or nothing |
| BookingService.CancelOutcome | backend/services/bookingService.js:181-222 | only a Confirmed booking, the caller's unless admin, can be cancelled; a non-admin needs 24 h notice; only status, date and reason change |
| BookingService.CancelTwiceFails | backend/services/bookingService.js:183-193 | a second cancel of the same booking fails "Booking not found or cannot be cancelled" |
| BookingService.TimelyOwnerCancelSucceeds | backend/services/bookingService.js:196-209 | the owner cancelling a valid Confirmed booking at least 24 h ahead succeeds |
| BookingService.AdminCancelOfPastStayFailsValidation | backend/services/bookingService.js:196-209 | an admin cancelling a booking whose check-in has passed fails the save validators |
| BookingService.CancelPreservesDisjoint | backend/services/bookingService.js:181-222 | cancelling keeps Confirmed bookings pairwise non-overlapping |
| BookingService.CancelBooking | backend/services/bookingService.js:181-222 | the store changes exactly as the outcome says |
| BookingService.UpdateBookingStatusOutcome | backend/services/bookingService.js:225-257 | an unknown status is rejected first, then a missing or foreign booking gives "Booking not found"; it succeeds iff the status is known and the caller may act on an existing booking |
| BookingService.UpdateStatusCanBreakDisjointness | backend/services/bookingService.js:225-247 | re-confirming a cancelled booking can create an overlap, since no availability check runs |
| BookingService.UpdateBookingStatus | backend/services/bookingService.js:225-257 | the store changes exactly as the outcome says |
| BookingService.UpdatePaymentStatusOutcome | backend/services/bookingService.js:260-289 | non-admins are refused before the value is checked; then the enum; then "Booking not found"; it succeeds iff an admin gives a known value for an existing booking |
| BookingService.PaymentUpdatePreservesDisjoint | backend/services/bookingService.js:260-289 | a payment update keeps Confirmed bookings non-overlapping |
| BookingService.UpdatePaymentStatus | backend/services/bookingService.js:260-289 | the store changes exactly as the outcome says |
| BookingService.GetBookingById | backend/services/bookingService.js:72-94 | a booking is returned iff it exists and the caller may see it (admin, no user given, or owner) |
| BookingService.GetUserBookings | backend/services/bookingService.js:97-128 | the page of the user's bookings (status filter if truthy), newest first, with its envelope |
| BookingService.EmptyFilterMatchesAll | backend/services/bookingService.js:131-178 | with no filter, every booking matches |
| BookingService.GetAllBookings | backend/services/bookingService.js:131-178 | the page of the filtered bookings, newest first, with its envelope |
| BookingService.GetUpcomingBookings | backend/services/bookingService.js:336-360 | the Confirmed bookings checking in within `days` days, the caller's unless admin, earliest first |
| HotelService.CreateHotel | backend/services/hotelService.js:75-89 | stores the hotel built from the body, rating, rooms and active flag included, with createdBy the acting user, or nothing |
| HotelService.PatchKeepsHotelValid | backend/services/hotelService.js:92-115 | a validated update keeps a valid hotel valid and its owner; an empty update changes nothing |
| HotelService.UpdateHotelOutcome | backend/services/hotelService.js:92-115 | the update validators run first; then the hotel must exist and be active, and a non-admin must have created it, else the permission message |
| HotelService.OnlyOwnerUpdates | backend/services/hotelService.js:94-109 | a non-admin's update of a hotel they did not create, or of an inactive hotel, fails |
| HotelService.UpdateHotel | backend/services/hotelService.js:92-115 | the store changes exactly as the outcome says |
| HotelService.DeactivatedShape | backend/services/hotelService.js:138-141 | the cascade deactivates every room of the hotel, touches no other room and keeps the index |
| HotelService.DeactivatedHasNoPrices | backend/services/hotelService.js:138-141 | after the cascade the hotel has no active price |
| HotelService.DeletedHotelIsClosed | backend/services/hotelService.js:118-147 | a deleted hotel's rooms cannot be booked and no room can be added to it |
| HotelService.DeleteHotel | backend/services/hotelService.js:118-147 | behind the same gate, sets the hotel inactive and deactivates its rooms; range and room list unchanged |
| HotelService.ActiveListed | backend/services/hotelService.js:54-72 | the populated rooms are exactly the listed ones that are active |
| HotelService.GetHotelById | backend/services/hotelService.js:54-72 | an active hotel with its active rooms, else "Hotel not found" |
| HotelService.GetAllHotels | backend/services/hotelService.js:6-51 | as written: fails with a cast error iff the price filter has a truthy maximum and no truthy minimum; otherwise the matching active hotels and the envelope for them |
| HotelService.GetAllHotelsIntended | backend/services/hotelService.js:9-28 | the hotels meeting every truthy filter, each applied on its own, and the envelope for them |
| HotelService.GetAllHotelsRespectsFilters | backend/services/hotelService.js:9-28 | results are active and meet every truthy rating, min-price and max-price filter; an unfiltered query returns every active hotel, and the query as written agrees with it |
| HotelService.GetAllHotelsAsIntendedUnlessMaxOnly | backend/services/hotelService.js:18-22 | without a max-only price filter, the query as written gives exactly the intended result |
| HotelService.MaxOnlyPriceFilterFails | backend/services/hotelService.js:18-22 | as written, a max-only filter fails although an active hotel in range exists (see Findings) |
| HotelService.MaxOnlyFilterIntended | backend/services/hotelService.js:18-22 | as intended, a max-only filter lists exactly the active hotels whose range ends at or below it |
| HotelService.GetHotelsByUser | backend/services/hotelService.js:190-215 | the page of hotels created by the user, newest first, with its envelope |
| HotelService.OwnedByIncludesInactive | backend/services/hotelService.js:194-200 | a soft-deleted hotel still belongs to its owner's list |
| HotelService.NextAverageBounds | backend/services/hotelService.js:228-230 | the new average stays in [0, 5] |
| HotelService.RateOutcome | backend/services/hotelService.js:218-238 | "Hotel not found" for an unknown id; on success the count grows by exactly 1 |
| HotelService.RatingValidHotelSucceeds | backend/services/hotelService.js:218-238 | rating a valid hotel with a value in [0, 5] succeeds |
| HotelService.UpdateHotelRating | backend/services/hotelService.js:218-238 | the store changes exactly as the outcome says |
| AuthMiddleware.ExtractToken | backend/middleware/auth.js:7-12 | the token is the second space-separated field, whatever the scheme |
| AuthMiddleware.TokenAfterAnyScheme | backend/middleware/auth.js:7-12 | "<scheme> <token>" yields the token; a header without a space yields none |
| AuthMiddleware.AuthenticateOutcome | backend/middleware/auth.js:5-42 | no token gives 401 "Access token required"; the three verification errors map to 401/401/500; the admin claims give the synthesized admin; otherwise an active stored user, else 401 |
| AuthMiddleware.AuthenticateProceeds | backend/middleware/auth.js:14-31 | a request passes only with a verified token for the admin or an active user; the admin case needs no store lookup |
| AuthMiddleware.AuthenticateToken | backend/middleware/auth.js:5-42 | attaches the principal and continues, or answers without touching req.user |
| AuthMiddleware.RequireAdmin | backend/middleware/auth.js:45-52 | passes iff a principal is attached and is an admin, else 403 |
| AuthMiddleware.AdminGate | backend/middleware/auth.js:45-52 | after authentication, requireAdmin passes iff the principal is the admin or a stored admin |
| AuthMiddleware.OptionalPrincipal | backend/middleware/auth.js:55-72 | a principal exactly for a verified token of an active stored user |
| AuthMiddleware.OptionalAuth | backend/middleware/auth.js:55-72 | always continues; sets req.user only when there is a principal |
| AuthMiddleware.AdminTokenIsAnonymousWhenOptional | backend/middleware/auth.js:55-72 | the admin token is accepted by authenticateToken but attaches nothing under optionalAuth |
| AuthService.RegisterOutcome | backend/services/authService.js:15-48 | missing name, e-mail or password, then a taken e-mail, then the schema; the stored user has the hashed password; it succeeds iff the fields are supplied, the e-mail is free and the built user passes the schema |
| AuthService.RegisterWithoutPhoneFails | backend/services/authService.js:28-36 | registration without a phone always fails the schema |
| AuthService.Register | backend/services/authService.js:15-48 | stores the outcome's user under the new id and returns its token claims; keeps e-mails unique |
| AuthService.LoginOutcome | backend/services/authService.js:51-97 | admin login succeeds iff the hardcoded pair matches; a regular login needs an active user with that e-mail and a matching password; one message for all failures |
| AuthService.InactiveUserCannotLogIn | backend/services/authService.js:76-85 | an inactive user's correct credentials are refused with "Invalid credentials" |
| AuthService.LoginTokenAuthenticates | backend/services/authService.js:76-97 | a login token passes authenticateToken for the same user |
| AuthService.GetUserProfile | backend/services/authService.js:100-110 | an active user's JSON form without the hash, else "User not found" |
| AuthService.UpdateProfileOutcome | backend/services/authService.js:113-146 | only truthy name, phone and e-mail change; an e-mail change fails iff another user has it; it succeeds iff the user exists, there is no e-mail clash and the assigned user passes the schema |
| AuthService.SameEmailSkipsCheck | backend/services/authService.js:123-131 | resubmitting one's own e-mail never fails with "Email is already in use" |
| AuthService.UpdateProfileKeepsUniqueEmails | backend/services/authService.js:123-131 | a profile update keeps e-mails unique |
| AuthService.AssignProfile | backend/services/authService.js:121-133 | the assignments are made unless the e-mail check fails |
| AuthService.UpdateProfile | backend/services/authService.js:113-146 | the store changes exactly as the outcome says |
| AuthService.ChangePasswordOutcome | backend/services/authService.js:149-170 | "User not found", then "Current password is incorrect"; on success the new password is hashed; it succeeds iff the user exists, the current password matches and the user with the plaintext new password passes the schema, which for a valid stored user means a new password of at least 6 characters |
| AuthService.NewPasswordTakesOver | backend/services/authService.js:149-170 | after a change the new password matches and the old one does not |
| AuthService.ChangePassword | backend/services/authService.js:149-170 | the store changes exactly as the outcome says |
| Validation.Check | backend/middleware/validation.js:17-20 | a rule gives no error iff it holds, else one error with its message |
| Validation.NumberErrors | backend/middleware/validation.js:69-76 | a non-number fails both validators, the first with the default message; a negative number fails the second |
| Validation.HandleValidationErrors | backend/middleware/validation.js:4-13 | 400 "Validation failed" with the errors iff there are any; otherwise the request proceeds |
| Validation.RegistrationErrors | backend/middleware/validation.js:16-32 | passes iff the trimmed name has 2..50 characters, the e-mail is valid, the password has ≥ 6 and the phone matches |
| Validation.RegistrationRulesImplySchema | backend/middleware/validation.js:16-32 | a body passing the rules gives a user that passes the schema |
| Validation.LoginErrors | backend/middleware/validation.js:34-43 | passes iff the e-mail is valid and the password is non-empty |
| Validation.LocationErrors | backend/middleware/validation.js:51-65 | passes iff all five address fields are non-empty |
| Validation.HotelErrors | backend/middleware/validation.js:46-78 | passes iff name 2..100 trimmed, complete location, description 10..1000 and both prices non-negative numbers |
| Validation.HotelRulesImplyBuild | backend/middleware/validation.js:46-78 | a body passing the rules builds a hotel |
| Validation.RoomErrors | backend/middleware/validation.js:81-101 | passes iff trimmed room number non-empty, type in the six values, price ≥ 0, adults ≥ 1 and children (when given) ≥ 0 |
| Validation.RoomRulesImplyBuild | backend/middleware/validation.js:81-101 | a body passing the rules builds a room |
| Validation.CheckInAsDate | backend/middleware/validation.js:117-125 | `new Date(req.body.checkIn)` is an invalid date exactly when the check-in is absent |
| Validation.CheckInErrors | backend/middleware/validation.js:108-116 | passes iff the check-in is a date no earlier than the start of today |
| Validation.CheckOutErrors | backend/middleware/validation.js:117-125 | passes iff the check-out is a date after the body's check-in, when that is a date |
| Validation.BookingErrors | backend/middleware/validation.js:104-140 | passes iff valid room id, check-in from today on, check-out after it, adults ≥ 1, children ≥ 0 when given, phone and e-mail valid |
| Validation.MalformedCheckInReports | backend/middleware/validation.js:108-125 | a malformed check-in is reported twice and the check-out not at all; an absent check-in blocks only a malformed check-out |
| Validation.BookingRulesImplySchema | backend/middleware/validation.js:104-140 | a body passing the rules meets the booking schema's date and guest constraints |
| Validation.ObjectIdErrors | backend/middleware/validation.js:143-148 | passes iff the parameter is an object id, else "Invalid <name>" |
| Validation.PaginationErrors | backend/middleware/validation.js:151-161 | passes iff page (when given) ≥ 1 and limit (when given) is in 1..100 |
| Validation.PaginationRulesGiveUsablePages | backend/middleware/validation.js:151-161 | accepted pagination with the defaults gives page ≥ 1 and limit in 1..100 |
| UserController.MapRole | backend/controllers/userController.js:41-47 | a truthy role becomes isAdmin = (role == "admin") and is removed; otherwise the body is passed on unchanged |
| UserController.ApplySet | backend/controllers/userController.js:49-53 | `$set` changes exactly the given paths, trimming the name and lower-casing the e-mail |
| UserController.UpdateUserOutcome | backend/controllers/userController.js:39-63 | cast errors give 400, a missing id 404 "User not found", a taken e-mail 400; else the updated user without the hash |
| UserController.RoleSetsAdminFlag | backend/controllers/userController.js:41-53 | role "admin" makes a user an admin, any other role an ordinary user, and nothing else changes |
| UserController.PasswordHashStoredVerbatim | backend/controllers/userController.js:49-53 | a password hash set through this update is stored as given, unhashed |
| UserController.UpdateUserKeepsUniqueEmails | backend/controllers/userController.js:49-60 | an update keeps e-mails unique |
| UserController.UpdateUser | backend/controllers/userController.js:39-63 | the store changes exactly as the outcome says |
| UserController.DeleteUserOutcome | backend/controllers/userController.js:66-78 | removes the user iff it exists ("User deleted successfully"), else 404 |
| UserController.DeleteTwiceFails | backend/controllers/userController.js:66-78 | a second delete answers 404 |
| UserController.DeleteUser | backend/controllers/userController.js:66-78 | the store changes exactly as the outcome says |
| UserController.GetAllUsers | backend/controllers/userController.js:29-36 | every user, active or not, newest first, none with a password hash |
| BookingSlice.FirstTruthy | frontend/src/store/slices/bookingSlice.js:10-17 | the server message, else the error's, else the fallback; never empty |
| BookingSlice.FetchSettled | frontend/src/store/slices/bookingSlice.js:4-19 | the data when it is an array, else []; a failure rejects with a message and error.message "Rejected" |
| BookingSlice.CreateSettled | frontend/src/store/slices/bookingSlice.js:21-27 | fulfils with the response data; a failure carries only the thrown message |
| BookingSlice.CancelSettled | frontend/src/store/slices/bookingSlice.js:29-44 | fulfils with the id; a failure rejects with a message |
| BookingSlice.RemoveById | frontend/src/store/slices/bookingSlice.js:84-86 | keeps exactly the documents whose `_id` is not the id |
| BookingSlice.RemoveByIdIdempotent | frontend/src/store/slices/bookingSlice.js:84-86 | filtering twice equals filtering once |
| BookingSlice.RemoveByIdAppend | frontend/src/store/slices/bookingSlice.js:84-86 | filtering distributes over concatenation, so order is kept |
| BookingSlice.BookingListState.Initial | frontend/src/store/slices/bookingSlice.js:47-51 | no bookings, not loading, no error |
| BookingSlice.BookingListState.FetchPending | frontend/src/store/slices/bookingSlice.js:55-57 | sets loading; list and error unchanged |
| BookingSlice.BookingListState.FetchFulfilled | frontend/src/store/slices/bookingSlice.js:58-61 | replaces the list and clears loading |
| BookingSlice.BookingListState.FetchRejected | frontend/src/store/slices/bookingSlice.js:62-65 | as written: clears loading and records `error.message`; the list is unchanged |
| BookingSlice.BookingListState.FetchRejectedIntended | frontend/src/store/slices/bookingSlice.js:62-65 | as intended: clears loading and records the rejection payload (see Findings) |
| BookingSlice.BookingListState.CreatePending | frontend/src/store/slices/bookingSlice.js:66-68 | sets loading; list and error unchanged |
| BookingSlice.BookingListState.CreateFulfilled | frontend/src/store/slices/bookingSlice.js:69-72 | appends exactly the payload at the end and clears loading |
| BookingSlice.BookingListState.CreateRejected | frontend/src/store/slices/bookingSlice.js:73-76 | clears loading and records error.message |
| BookingSlice.BookingListState.CancelPending | frontend/src/store/slices/bookingSlice.js:77-80 | sets loading and clears the error |
| BookingSlice.BookingListState.CancelFulfilled | frontend/src/store/slices/bookingSlice.js:81-87 | removes every document with the id, keeps the order, clears loading and error |
| BookingSlice.BookingListState.CancelRejected | frontend/src/store/slices/bookingSlice.js:88-91 | clears loading and records the payload |
| BookingSlice.BookingListState.Fetch | frontend/src/store/slices/bookingSlice.js:4-65 | a whole fetch as written: the list, or the unchanged list and `error.message`, which is "Rejected" for every failure |
| BookingSlice.BookingListState.FetchIntended | frontend/src/store/slices/bookingSlice.js:4-65 | a whole fetch as intended: the list, or the unchanged list and the message the thunk rejected with |
| BookingSlice.BookingListState.Create | frontend/src/store/slices/bookingSlice.js:21-76 | a whole create: one document appended, or the thrown message |
| BookingSlice.BookingListState.Cancel | frontend/src/store/slices/bookingSlice.js:29-91 | a whole cancel: the id filtered out, or the message |
| BookingSlice.FetchErrorAsWrittenLosesMessage | frontend/src/store/slices/bookingSlice.js:62-65 | as written, a failed fetch shows "Rejected" instead of the server's message (see Findings) |
| BookingSlice.FetchFailureShowsServerMessage | frontend/src/store/slices/bookingSlice.js:10-17 | the rejection payload is the server's message when there is one, and never empty |
| BookingSlice.CreateThenCancel | frontend/src/store/slices/bookingSlice.js:69-87 | a document created and then cancelled by its id is gone, and the rest is filtered as before |

## Left out

- Token signing and verification, and bcrypt: these are the parameters `verify` and `hash`. `generateToken` and `verifyToken` in the auth service are not modelled.
- The checks `isEmail`, `isMongoId`, `isISO8601` and `normalizeEmail` are not interpreted. `isEmail` and `isMongoId` are parameters. Dates arrive already parsed, as `Field` values. `normalizeEmail` is not applied.
- UserModel.UserValid: does not check the e-mail pattern of the schema, which is an uninterpreted regular expression. It only requires a non-empty e-mail.
- MongoDB query semantics are not modelled: populate, projection, indexes other than the unique ones, and the `$group` pipeline of `getBookingStats`. Filters are predicates over maps.
- `getBookingStats`, `getAllRooms`, `getRoomsByHotel` and `searchHotels` are not part of this model. They are reporting or search reads that build case-insensitive regular expressions from user input.
- The city and state regular-expression filters of `getAllHotels` are left out, for the same reason.
- HotelService.GetAllHotels: returns the matching set and the envelope, not the sorted page. The two-key sort (rating, then creation time) is not modelled.
- HotelService.NextAverage: is the exact mean. The rounding to one decimal place (floating point) is left out.
- HotelService.GetAllHotels: the failure of a max-only price filter is reduced to one error value, `PriceFilterCastFailed`. The message Mongoose builds for it is not modelled.
- HotelService.HotelMatches: treats a `minPrice` or `maxPrice` of 0, and an empty amenity list, as no filter, as JavaScript truthiness does. A zero rating filter is likewise ignored.
- The list methods (`GetUserBookings`, `GetAllBookings`, `GetHotelsByUser`, `GetAllHotels`): require page ≥ 1 and limit ≥ 1. `Validation.PaginationRulesGiveUsablePages` shows the request rules provide these. Pages below 1 reaching the service directly are not modelled.
- The controllers other than the user controller, the routes and the server wiring are not modelled. The services are modelled with their own signatures.
- Mongoose cast errors for malformed ids (answered 500 or 400 by the callers) are not modelled. Ids are plain strings.
- UserController.CastsTo: accepts only a string for a string path, a boolean for a boolean path, and a string or null for the avatar. Mongoose's lenient casts (a number to a string, "true" to a boolean) are left out. The cast error's message is reduced to a constant.
- UserController.ApplySet: keys that are not settable paths are dropped, as strict mode does. A `$set` of `_id` or `createdAt` is not modelled.
- The mass-assignment spread of update bodies is modelled only through the patch fields each service accepts. This covers `updateHotel`, `updateRoom` and the user controller's `$set`. A replacement of the nested `capacity` object is modelled field by field.
- Images, coordinates and the room's `images` and `bedType` updates are not modelled. They carry no rule the core relies on.
- Daylight-saving changes of the UTC offset within a day are not modelled. `Clock` has a single offset.
- Concurrency is not modelled: each method is one atomic step.
- The React pages, the HTTP client and the other slices are not part of this model.
- BookingSlice.CreateSettled: the response data is taken to be one JSON object. A non-object payload, which the reducer would push as is, is not modelled.
- Validation.CheckInAsDate: the model assumes `toDate()` writes back null for a malformed check-in but leaves an absent one undefined. That reading of the validator library decides which check-out errors appear.
- HotelModel.BuildHotel: of the fields the create body can set through its spread, only the schema's own fields are modelled: rating, rooms and the active flag are. A body's `_id`, `createdAt` or `updatedAt` is not. The rating count is a `nat`, so a negative or fractional count is not modelled.
- String lengths: UserModel.UserValid, HotelModel.HotelValid, RoomModel.RoomValid, BookingModel.BookingValid and the length rules of `Validation` all count characters as Unicode code points (`|s|`). The schema's `minlength` and `maxlength` count UTF-16 code units. express-validator's `isLength` counts a surrogate pair as one character and does not count the variation selectors U+FE0E and U+FE0F. Validation.RegistrationRulesImplySchema and Validation.HotelRulesImplyBuild rely on one count on both sides. They hold for text without astral-plane characters or variation selectors. A name of 30 emoji passes `isLength({ max: 50 })` but is 60 UTF-16 units long, so the schema's limit of 50 rejects it; the model does not capture that.
- JsText.ToLower: lower-cases the ASCII letters only. JavaScript's `toLowerCase` also maps non-ASCII letters. The difference shows only for an e-mail with non-ASCII letters, at registration, at login and in the user controller's `$set`.
- Validation.RegistrationErrors: takes `isEmail` over the text as sent. The lower-casing by `normalizeEmail` is left to the user schema.
- The registration and login tokens carry `isAdmin` false even for a user registered with `isAdmin` true, as the code does. The model reproduces this and does not flag it.

## Findings

| source | as written | input that shows it | evidently intended | confidence | as-written member | corrected member |
|---|---|---|---|---|---|---|
| backend/services/roomService.js:123-125 | the hotel's price range is recomputed only when `updateData.pricePerNight` is truthy | the only active room of a hotel at 100 a night is updated to 0; the hotel keeps range (100, 100) | recompute whenever a price is given, including 0 | not executed | RoomService.UpdateRoomAsWrittenLeavesStaleRange | RoomService.UpdateRoomKeepsRangeInSync |
| frontend/src/store/slices/bookingSlice.js:62-65 | the fetch-rejected case stores `action.error.message`. The thunk rejects through `rejectWithValue`, so that message is "Rejected" | a fetch that fails with server message "Session expired" leaves error "Rejected" | store `action.payload`, as the cancel case does, so the user sees the server's message | not executed | BookingSlice.FetchErrorAsWrittenLosesMessage | BookingSlice.FetchFailureShowsServerMessage |
| backend/services/hotelService.js:18-22 | a truthy `maxPrice` sets `query['priceRange.min'] = {}`, and only a truthy `minPrice` fills it, so a max-only query keeps an empty object as the condition on the minimum, which Mongoose cannot cast to a number | filters `{ maxPrice: 100 }` with one active hotel priced 50 to 80: the find fails instead of listing it | create the minimum condition only when `minPrice` is given | not executed | HotelService.MaxOnlyPriceFilterFails | HotelService.MaxOnlyFilterIntended |
