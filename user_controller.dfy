/** The administrator's user operations: list every user newest first without the
    password hash, update a user (a `role` in the body becomes `isAdmin`) and
    delete a user. An update goes through `findByIdAndUpdate` with `$set`: the
    schema's setters (trim, lower-case) and casts apply, the unique e-mail index
    applies, the validators and the pre-save hook do not. */
module UserController {
  import opened Common
  import opened JsText
  import opened Query
  import opened UserModel
  import opened Store

  const UserNotFound: string := "User not found"
  const UserDeleted: string := "User deleted successfully"
  /** The message of a Mongoose cast error, reduced to its kind. */
  const CastFailed: string := "Cast to schema type failed"

  /** What the controller answers: a JSON document or a message, with a status. */
  datatype Reply = Document(status: int, doc: JsonObject) | Message(status: int, message: string)

  /** `if (updateData.role) { updateData.isAdmin = updateData.role === 'admin'; delete updateData.role; }` */
  function MapRole(body: JsonObject): (r: JsonObject)
    ensures "role" in body && Truthy(body["role"]) ==>
              && "role" !in r && "isAdmin" in r && r["isAdmin"] == JBool(body["role"] == JStr("admin"))
              && r.Keys == body.Keys - {"role"} + {"isAdmin"}
              && forall k :: k in body && k != "role" && k != "isAdmin" ==> r[k] == body[k]
    ensures !("role" in body && Truthy(body["role"])) ==> r == body
  {
    if "role" in body && Truthy(body["role"]) then (body - {"role"})["isAdmin" := JBool(body["role"] == JStr("admin"))]
    else body
  }

  /** The schema paths an update may set, with the kind of value each accepts. */
  const StringPaths: set<string> := {"name", "email", "passwordHash", "phone"}
  const BooleanPaths: set<string> := {"isAdmin", "isActive"}

  /** A value Mongoose casts to the path's type without error. Keys that are not
      settable paths are dropped (strict mode). */
  predicate CastsTo(key: string, v: JsonValue) {
    && (key in StringPaths ==> v.JStr?)
    && (key in BooleanPaths ==> v.JBool?)
    && (key == "avatar" ==> v.JStr? || v.JNull?)
  }

  predicate CastsCleanly(upd: JsonObject) {
    forall k :: k in upd ==> CastsTo(k, upd[k])
  }

  function StringOr(upd: JsonObject, key: string, current: string): string {
    if key in upd && upd[key].JStr? then upd[key].s else current
  }

  function BoolOr(upd: JsonObject, key: string, current: bool): bool {
    if key in upd && upd[key].JBool? then upd[key].b else current
  }

  /** `$set` applied to a stored user, setters included: a set name is trimmed, a
      set e-mail lower-cased, and a set password hash is stored as given. */
  function ApplySet(u: User, upd: JsonObject): (r: User)
    requires CastsCleanly(upd)
    ensures "name" in upd ==> r.name == Trim(upd["name"].s)
    ensures "email" in upd ==> r.email == ToLower(upd["email"].s)
    ensures "passwordHash" in upd ==> r.passwordHash == upd["passwordHash"].s
    ensures "isAdmin" in upd ==> r.isAdmin == upd["isAdmin"].b
    ensures "name" !in upd ==> r.name == u.name
    ensures "email" !in upd ==> r.email == u.email
    ensures "passwordHash" !in upd ==> r.passwordHash == u.passwordHash
    ensures "phone" !in upd ==> r.phone == u.phone
    ensures "isAdmin" !in upd ==> r.isAdmin == u.isAdmin
    ensures "isActive" !in upd ==> r.isActive == u.isActive
    ensures "avatar" !in upd ==> r.avatar == u.avatar
    ensures r.createdAt == u.createdAt
  {
    User(
      if "name" in upd then Trim(upd["name"].s) else u.name,
      if "email" in upd then ToLower(upd["email"].s) else u.email,
      StringOr(upd, "passwordHash", u.passwordHash),
      StringOr(upd, "phone", u.phone),
      BoolOr(upd, "isAdmin", u.isAdmin),
      if "avatar" !in upd then u.avatar else if upd["avatar"].JStr? then Some(upd["avatar"].s) else None,
      BoolOr(upd, "isActive", u.isActive),
      u.createdAt)
  }

  predicate EmailTakenByOther(users: map<Id, User>, id: Id, email: string) {
    exists other :: other in users && other != id && users[other].email == email
  }

  /** The outcome of `updateUser`: the answer and the users afterwards. The update
      is cast before the query runs, so a cast error is reported even for an
      unknown id; the unique index rejects an e-mail another user has. */
  function UpdateUserOutcome(users: map<Id, User>, id: Id, body: JsonObject): (r: (Reply, map<Id, User>))
    ensures !CastsCleanly(MapRole(body)) ==> r == (Message(400, CastFailed), users)
    ensures CastsCleanly(MapRole(body)) && id !in users ==> r == (Message(404, UserNotFound), users)
    ensures r.0.Document? <==>
              && CastsCleanly(MapRole(body)) && id in users
              && !EmailTakenByOther(users, id, ApplySet(users[id], MapRole(body)).email)
    ensures r.0.Document? ==> var u := ApplySet(users[id], MapRole(body));
                              r == (Document(200, ToJson(id, u)), users[id := u])
    ensures r.0.Message? ==> r.1 == users
  {
    var upd := MapRole(body);
    if !CastsCleanly(upd) then (Message(400, CastFailed), users)
    else if id !in users then (Message(404, UserNotFound), users)
    else
      var u := ApplySet(users[id], upd);
      if EmailTakenByOther(users, id, u.email) then (Message(400, DuplicateKey), users)
      else (Document(200, ToJson(id, u)), users[id := u])
  }

  /** `role: "admin"` makes an existing user an administrator and any other
      non-empty role makes them an ordinary user; nothing else about them changes. */
  lemma {:induction false} RoleSetsAdminFlag(users: map<Id, User>, id: Id, role: string)
    requires id in users && role != ""
    requires UniqueEmails(users)
    ensures var r := UpdateUserOutcome(users, id, map["role" := JStr(role)]);
            && r.0.Document?
            && r.1[id] == users[id].(isAdmin := role == "admin")
            && Role(r.1[id]) == (if role == "admin" then "admin" else "user")
  {
    var body := map["role" := JStr(role)];
    var upd := MapRole(body);
    assert upd == map["isAdmin" := JBool(role == "admin")];
    var u := ApplySet(users[id], upd);
    assert u == users[id].(isAdmin := role == "admin");
    assert !EmailTakenByOther(users, id, u.email);
  }

  /** A password hash set through this update is stored as given: the pre-save
      hook that hashes passwords does not run. */
  lemma PasswordHashStoredVerbatim(users: map<Id, User>, id: Id, hash: string)
    requires id in users && UniqueEmails(users)
    ensures var r := UpdateUserOutcome(users, id, map["passwordHash" := JStr(hash)]);
            r.0.Document? && r.1[id].passwordHash == hash
  {
    var upd := map["passwordHash" := JStr(hash)];
    assert MapRole(upd) == upd;
    assert ApplySet(users[id], upd).email == users[id].email;
  }

  /** Whatever the body, an update keeps e-mails unique. */
  lemma UpdateUserKeepsUniqueEmails(users: map<Id, User>, id: Id, body: JsonObject)
    requires UniqueEmails(users)
    ensures UniqueEmails(UpdateUserOutcome(users, id, body).1)
  {
    var r := UpdateUserOutcome(users, id, body);
    if r.0.Document? {
      StoreKeepsUniqueEmails(users, id, ApplySet(users[id], MapRole(body)));
    }
  }

  /** `updateUser`. */
  method UpdateUser(db: Db, id: Id, body: JsonObject) returns (reply: Reply)
    requires db.Valid()
    modifies db
    ensures db.Valid()
    ensures (reply, db.users) == UpdateUserOutcome(old(db.users), id, body)
    ensures db.hotels == old(db.hotels) && db.rooms == old(db.rooms)
    ensures db.roomOrder == old(db.roomOrder) && db.bookings == old(db.bookings)
  {
    var upd := MapRole(body);
    if !CastsCleanly(upd) {
      return Message(400, CastFailed);
    }
    if id !in db.users {
      return Message(404, UserNotFound);
    }
    var u := ApplySet(db.users[id], upd);
    if EmailTakenByOther(db.users, id, u.email) {
      return Message(400, DuplicateKey);
    }
    StoreKeepsUniqueEmails(db.users, id, u);
    db.users := db.users[id := u];
    reply := Document(200, ToJson(id, u));
  }

  /** The outcome of `deleteUser`: the record is removed outright. */
  function DeleteUserOutcome(users: map<Id, User>, id: Id): (r: (Reply, map<Id, User>))
    ensures id in users <==> r.0 == Message(200, UserDeleted)
    ensures id !in users ==> r == (Message(404, UserNotFound), users)
    ensures id !in r.1 && r.1 == users - {id}
  {
    if id in users then (Message(200, UserDeleted), users - {id})
    else (Message(404, UserNotFound), users)
  }

  /** Deleting the same user twice: the second call finds nobody. */
  lemma DeleteTwiceFails(users: map<Id, User>, id: Id)
    ensures DeleteUserOutcome(DeleteUserOutcome(users, id).1, id).0 == Message(404, UserNotFound)
  {
  }

  /** `deleteUser`. Hotels and bookings that refer to the user stay as they are. */
  method DeleteUser(db: Db, id: Id) returns (reply: Reply)
    requires db.Valid()
    modifies db
    ensures db.Valid()
    ensures (reply, db.users) == DeleteUserOutcome(old(db.users), id)
    ensures db.hotels == old(db.hotels) && db.rooms == old(db.rooms)
    ensures db.roomOrder == old(db.roomOrder) && db.bookings == old(db.bookings)
  {
    if id !in db.users {
      return Message(404, UserNotFound);
    }
    db.users := db.users - {id};
    reply := Message(200, UserDeleted);
  }

  function CreatedAtOfUsers(users: map<Id, User>): map<Id, int> {
    map id | id in users :: users[id].createdAt
  }

  /** `getAllUsers`: every user, active or not, newest first, each in its JSON form,
      none with a password hash. */
  method GetAllUsers(users: map<Id, User>) returns (list: seq<JsonObject>)
    ensures |list| == |users|
    ensures forall i :: 0 <= i < |list| ==> "passwordHash" !in list[i]
    ensures exists order :: IsOrdering(order, users.Keys, CreatedAtOfUsers(users), true)
                            && |order| == |list|
                            && forall i :: 0 <= i < |list| ==> list[i] == ToJson(order[i], users[order[i]])
  {
    var key := CreatedAtOfUsers(users);
    var order := SortIds(users.Keys, key, true);
    assert forall i :: 0 <= i < |order| ==> order[i] in users;
    list := seq(|order|, i requires 0 <= i < |order| => ToJson(order[i], users[order[i]]));
    assert IsOrdering(order, users.Keys, key, true);
  }
}
