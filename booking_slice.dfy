/** The client-side list of the signed-in user's bookings: three request thunks
    (fetch, create, cancel), each settling as fulfilled or rejected, and the
    reducer cases that update the list, the loading flag and the error. The HTTP
    calls are parameters: a thunk is given what its request came back with. */
module BookingSlice {
  import opened Common

  /** A booking as the client holds it: the JSON document the server sent. */
  type Doc = JsonObject

  /** The `data` of a fetch response: an array of documents or something else. */
  datatype ResponseData = ArrayOf(items: seq<Doc>) | NotArray

  /** What a request came back with: the response data, or an error carrying the
      server's `message` (when the server answered) and the error's own message. */
  datatype Reply<+T> = Success(data: T) | Failure(serverMessage: Option<string>, message: Option<string>)

  /** How a thunk settles. A rejected action has the `rejectWithValue` payload
      and `error.message`, which the toolkit sets to "Rejected" when the thunk
      rejected with a value and to the thrown error's message otherwise. */
  datatype Settled<+T> = Fulfilled(value: T) | Rejected(payload: Option<string>, errorMessage: Option<string>)

  const RejectedWithValue: string := "Rejected"
  const FetchFallback: string := "Failed to fetch bookings"
  const CancelFallback: string := "Failed to cancel booking"

  /** `a || b || fallback` over strings. */
  function FirstTruthy(a: Option<string>, b: Option<string>, fallback: string): (r: string)
    ensures Supplied(a) ==> r == a.value
    ensures !Supplied(a) && Supplied(b) ==> r == b.value
    ensures !Supplied(a) && !Supplied(b) ==> r == fallback
    ensures fallback != "" ==> r != ""
  {
    if Supplied(a) then a.value else if Supplied(b) then b.value else fallback
  }

  /** `fetchUserBookings`: the response data when it is an array, else no bookings;
      a failure rejects with the server's message, the error's, or a fallback. */
  function FetchSettled(r: Reply<ResponseData>): (s: Settled<seq<Doc>>)
    ensures r.Success? ==> s == Fulfilled(if r.data.ArrayOf? then r.data.items else [])
    ensures r.Failure? ==> s == Rejected(Some(FirstTruthy(r.serverMessage, r.message, FetchFallback)), Some(RejectedWithValue))
  {
    match r
    case Success(d) => Fulfilled(if d.ArrayOf? then d.items else [])
    case Failure(server, message) => Rejected(Some(FirstTruthy(server, message, FetchFallback)), Some(RejectedWithValue))
  }

  /** `createBooking`: no `rejectWithValue`, so a failure carries only the thrown
      error's message. */
  function CreateSettled(r: Reply<Doc>): (s: Settled<Doc>)
    ensures r.Success? ==> s == Fulfilled(r.data)
    ensures r.Failure? ==> s == Rejected(None, r.message)
  {
    match r
    case Success(d) => Fulfilled(d)
    case Failure(_, message) => Rejected(None, message)
  }

  /** `cancelBooking(id)`: fulfils with the id; a failure rejects with the server's
      message, the error's, or a fallback. */
  function CancelSettled<T>(id: Id, r: Reply<T>): (s: Settled<Id>)
    ensures r.Success? ==> s == Fulfilled(id)
    ensures r.Failure? ==> s == Rejected(Some(FirstTruthy(r.serverMessage, r.message, CancelFallback)), Some(RejectedWithValue))
  {
    match r
    case Success(_) => Fulfilled(id)
    case Failure(server, message) => Rejected(Some(FirstTruthy(server, message, CancelFallback)), Some(RejectedWithValue))
  }

  /** `booking._id !== id`: a document without an id is never the one cancelled. */
  predicate Keeps(b: Doc, id: Id) {
    !("_id" in b && b["_id"] == JStr(id))
  }

  /** `bookings.filter((booking) => booking._id !== id)`. */
  function RemoveById(xs: seq<Doc>, id: Id): (r: seq<Doc>)
    ensures |r| <= |xs|
    ensures forall i :: 0 <= i < |r| ==> Keeps(r[i], id) && r[i] in xs
    ensures forall i :: 0 <= i < |xs| && Keeps(xs[i], id) ==> xs[i] in r
  {
    if xs == [] then []
    else
      var rest := RemoveById(xs[..|xs| - 1], id);
      if Keeps(xs[|xs| - 1], id) then rest + [xs[|xs| - 1]] else rest
  }

  /** The filter keeps the surviving documents in their order: filtering a list
      that already has the id removed changes nothing. */
  lemma {:induction false} RemoveByIdIdempotent(xs: seq<Doc>, id: Id)
    ensures RemoveById(RemoveById(xs, id), id) == RemoveById(xs, id)
  {
    if xs != [] {
      var init := xs[..|xs| - 1];
      RemoveByIdIdempotent(init, id);
      var rest := RemoveById(init, id);
      if Keeps(xs[|xs| - 1], id) {
        assert (rest + [xs[|xs| - 1]])[..|rest|] == rest;
      }
    }
  }

  /** Filtering distributes over concatenation, so a cancel removes matching
      documents from both the fetched part of the list and the created part. */
  lemma {:induction false} RemoveByIdAppend(xs: seq<Doc>, ys: seq<Doc>, id: Id)
    ensures RemoveById(xs + ys, id) == RemoveById(xs, id) + RemoveById(ys, id)
  {
    if ys == [] {
      assert xs + ys == xs;
    } else {
      var init := ys[..|ys| - 1];
      assert (xs + ys)[..|xs + ys| - 1] == xs + init;
      assert (xs + ys)[|xs + ys| - 1] == ys[|ys| - 1];
      RemoveByIdAppend(xs, init, id);
    }
  }

  /** The reducer's state. */
  class BookingListState {
    var bookings: seq<Doc>
    var loading: bool
    var error: Option<string>

    /** `initialState`. */
    constructor Initial()
      ensures bookings == [] && !loading && error == None
    {
      bookings := [];
      loading := false;
      error := None;
    }

    /** `fetchUserBookings.pending`: the error is left as it was. */
    method FetchPending()
      modifies this
      ensures loading && bookings == old(bookings) && error == old(error)
    {
      loading := true;
    }

    /** `fetchUserBookings.fulfilled`: the list is replaced. */
    method FetchFulfilled(payload: seq<Doc>)
      modifies this
      ensures !loading && bookings == payload && error == old(error)
    {
      loading := false;
      bookings := payload;
    }

    /** `fetchUserBookings.rejected` as written: the error becomes `error.message`,
        not the message the thunk rejected with. */
    method FetchRejected(errorMessage: Option<string>)
      modifies this
      ensures !loading && error == errorMessage && bookings == old(bookings)
    {
      loading := false;
      error := errorMessage;
    }

    /** `fetchUserBookings.rejected` as intended: the error becomes the rejection
        payload, as in the cancel reducer. */
    method FetchRejectedIntended(payload: Option<string>)
      modifies this
      ensures !loading && error == payload && bookings == old(bookings)
    {
      loading := false;
      error := payload;
    }

    /** `createBooking.pending`. */
    method CreatePending()
      modifies this
      ensures loading && bookings == old(bookings) && error == old(error)
    {
      loading := true;
    }

    /** `createBooking.fulfilled`: exactly one document is added, at the end. */
    method CreateFulfilled(payload: Doc)
      modifies this
      ensures !loading && bookings == old(bookings) + [payload] && error == old(error)
    {
      loading := false;
      bookings := bookings + [payload];
    }

    /** `createBooking.rejected`: the error becomes `error.message`. */
    method CreateRejected(errorMessage: Option<string>)
      modifies this
      ensures !loading && error == errorMessage && bookings == old(bookings)
    {
      loading := false;
      error := errorMessage;
    }

    /** `cancelBooking.pending`: loading, and the error cleared. */
    method CancelPending()
      modifies this
      ensures loading && error == None && bookings == old(bookings)
    {
      loading := true;
      error := None;
    }

    /** `cancelBooking.fulfilled`: every document with that id is dropped, the rest
      keep their order. */
    method CancelFulfilled(id: Id)
      modifies this
      ensures !loading && error == None
      ensures bookings == RemoveById(old(bookings), id)
    {
      loading := false;
      error := None;
      bookings := RemoveById(bookings, id);
    }

    /** `cancelBooking.rejected`: the error becomes the rejection payload. */
    method CancelRejected(payload: Option<string>)
      modifies this
      ensures !loading && error == payload && bookings == old(bookings)
    {
      loading := false;
      error := payload;
    }

    /** A fetch from start to finish as written: pending, then the case its settling
        picks; a failure always shows "Rejected" (FetchErrorAsWrittenLosesMessage). */
    method Fetch(r: Reply<ResponseData>)
      modifies this
      ensures !loading
      ensures FetchSettled(r).Fulfilled? ==> bookings == FetchSettled(r).value && error == old(error)
      ensures FetchSettled(r).Rejected? ==> bookings == old(bookings) && error == FetchSettled(r).errorMessage
      ensures r.Failure? ==> error == Some(RejectedWithValue)
    {
      FetchPending();
      var s := FetchSettled(r);
      match s
      case Fulfilled(v) => FetchFulfilled(v);
      case Rejected(_, errorMessage) => FetchRejected(errorMessage);
    }

    /** A fetch from start to finish as intended: a failure shows the message the
        thunk rejected with (FetchFailureShowsServerMessage). */
    method FetchIntended(r: Reply<ResponseData>)
      modifies this
      ensures !loading
      ensures FetchSettled(r).Fulfilled? ==> bookings == FetchSettled(r).value && error == old(error)
      ensures FetchSettled(r).Rejected? ==> bookings == old(bookings) && error == FetchSettled(r).payload
    {
      FetchPending();
      var s := FetchSettled(r);
      match s
      case Fulfilled(v) => FetchFulfilled(v);
      case Rejected(payload, _) => FetchRejectedIntended(payload);
    }

    /** A create from start to finish: a failure shows the thrown error's message. */
    method Create(r: Reply<Doc>)
      modifies this
      ensures !loading
      ensures r.Success? ==> bookings == old(bookings) + [r.data] && error == old(error)
      ensures r.Failure? ==> bookings == old(bookings) && error == r.message
    {
      CreatePending();
      var s := CreateSettled(r);
      match s
      case Fulfilled(v) => CreateFulfilled(v);
      case Rejected(_, errorMessage) => CreateRejected(errorMessage);
    }

    /** A cancel from start to finish. */
    method Cancel<T>(id: Id, r: Reply<T>)
      modifies this
      ensures !loading
      ensures r.Success? ==> bookings == RemoveById(old(bookings), id) && error == None
      ensures r.Failure? ==> bookings == old(bookings) && error == CancelSettled(id, r).payload
    {
      CancelPending();
      var s := CancelSettled(id, r);
      match s
      case Fulfilled(v) => CancelFulfilled(v);
      case Rejected(payload, _) => CancelRejected(payload);
    }
  }

  /** The fetch reducer as written reads `action.error.message`, which for a
      thunk that rejected with a value is "Rejected": the server's message, which
      the thunk took care to pass as the payload, never reaches the state. */
  lemma FetchErrorAsWrittenLosesMessage(server: string)
    requires server != "" && server != RejectedWithValue
    ensures var s := FetchSettled(Failure(Some(server), None));
            && s.Rejected? && s.payload == Some(server)
            && s.errorMessage == Some(RejectedWithValue) && s.errorMessage != Some(server)
  {
  }

  /** With the rejection payload read instead, as the cancel reducer does, a
      failed fetch shows the server's message when there is one and never an
      empty message. */
  lemma FetchFailureShowsServerMessage(server: Option<string>, message: Option<string>)
    ensures var s := FetchSettled(Failure(server, message));
            && s.Rejected? && s.payload.Some? && s.payload.value != ""
            && (Supplied(server) ==> s.payload == server)
  {
  }

  /** A document created and then cancelled by its id is gone, and the rest of the
      list is filtered as before. */
  lemma {:induction false} CreateThenCancel(xs: seq<Doc>, doc: Doc, id: Id)
    requires "_id" in doc && doc["_id"] == JStr(id)
    ensures RemoveById(xs + [doc], id) == RemoveById(xs, id)
  {
    RemoveByIdAppend(xs, [doc], id);
    assert RemoveById([doc], id) == RemoveById([], id) + [];
  }
}
