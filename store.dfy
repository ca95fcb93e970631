/** The database: one collection per record kind, keyed by document id. The rooms
    collection also keeps its natural (insertion) order, which is the order in
    which an unsorted `Room.find` returns documents. */
module Store {
  import opened Common
  import opened Query
  import opened BookingModel
  import opened RoomModel
  import opened HotelModel
  import opened UserModel

  const DuplicateKey: string := "E11000 duplicate key error"

  class Db {
    var users: map<Id, User>
    var hotels: map<Id, Hotel>
    var rooms: map<Id, Room>
    var roomOrder: seq<Id>
    var bookings: map<Id, Booking>

    /** The unique indexes hold and the natural order of rooms lists each room once. */
    ghost predicate Valid()
      reads this
    {
      && Distinct(roomOrder)
      && (forall id :: id in roomOrder <==> id in rooms)
      && UniqueRoomNumbers(rooms)
      && UniqueEmails(users)
    }

    /** An empty database. */
    constructor Empty()
      ensures Valid()
      ensures users == map[] && hotels == map[] && rooms == map[] && roomOrder == [] && bookings == map[]
    {
      users := map[];
      hotels := map[];
      rooms := map[];
      roomOrder := [];
      bookings := map[];
    }
  }
}
