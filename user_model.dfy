/** The User record: trimmed name, lower-cased unique e-mail, password hash, phone
    pattern, the `role` virtual, the redacted JSON form and the hash-on-modify rule
    of the pre-save hook. Hashing is a parameter: `hash` stands for bcrypt. */
module UserModel {
  import opened Common
  import opened JsText

  const MaxUserName: int := 50
  const MinPassword: int := 6

  datatype User = User(
    name: string,
    email: string,
    passwordHash: string,
    phone: string,
    isAdmin: bool,
    avatar: Option<string>,
    isActive: bool,
    createdAt: int)

  /** The `role` virtual. */
  function Role(u: User): (r: string)
    ensures r == "admin" <==> u.isAdmin
    ensures r == "user" <==> !u.isAdmin
  {
    if u.isAdmin then "admin" else "user"
  }

  /** One character of the class `[\d\s-()]`. */
  predicate PhoneChar(c: char) {
    ('0' <= c <= '9') || IsJsSpace(c) || c == '-' || c == '(' || c == ')'
  }

  predicate AllPhoneChars(s: string) {
    forall i :: 0 <= i < |s| ==> PhoneChar(s[i])
  }

  /** The phone pattern `^\+?[\d\s-()]+$`. */
  function PhoneMatches(s: string): (b: bool)
    ensures b ==> s != [] && s != "+"
    ensures b <==> (|s| >= 1 && AllPhoneChars(s)) || (|s| >= 2 && s[0] == '+' && AllPhoneChars(s[1..]))
  {
    if |s| >= 1 && s[0] == '+' then |s| >= 2 && AllPhoneChars(s[1..])
    else |s| >= 1 && AllPhoneChars(s)
  }

  /** A typical formatted number matches; digits after a second `+` do not. */
  lemma PhoneExamples()
    ensures PhoneMatches("+1 (555) 123-4567")
    ensures !PhoneMatches("1+2")
  {
    assert !PhoneChar("1+2"[1]);
  }

  /** The schema validators on a user about to be saved, with the password still in
      plaintext when it was just set: a non-empty name of at most 50 characters, an
      e-mail, a password of at least 6 characters and a phone matching the pattern. */
  predicate UserValid(u: User) {
    && u.name != "" && |u.name| <= MaxUserName
    && u.email != ""
    && |u.passwordHash| >= MinPassword
    && u.phone != "" && PhoneMatches(u.phone)
  }

  /** The document `new User({...})` builds: the name trimmed, the e-mail lower-cased,
      no avatar, active. */
  function NewUser(name: string, email: string, password: string, phone: string, isAdmin: bool, now: int): (u: User)
    ensures u.name == Trim(name) && u.email == ToLower(email) && IsLower(u.email)
    ensures u.passwordHash == password && u.phone == phone && u.isAdmin == isAdmin
    ensures u.avatar == None && u.isActive
  {
    ToLowerIdempotent(email);
    User(Trim(name), ToLower(email), password, phone, isAdmin, None, true, now)
  }

  const UserValidationFailed: string := "User validation failed"

  /** `user.save()` up to the write: the validators run first, on the plaintext
      password when it was modified; then the pre-save hook replaces a modified
      password by its hash and leaves an unmodified one alone. */
  function Saved(u: User, passwordModified: bool, hash: string -> string): (r: Result<User>)
    ensures r.Ok? <==> UserValid(u)
    ensures r.Ok? ==> r.value.(passwordHash := u.passwordHash) == u
    ensures r.Ok? && passwordModified ==> r.value.passwordHash == hash(u.passwordHash)
    ensures r.Ok? && !passwordModified ==> r.value.passwordHash == u.passwordHash
    ensures r.Err? ==> r.error == UserValidationFailed
  {
    if !UserValid(u) then Err(UserValidationFailed)
    else if passwordModified then Ok(u.(passwordHash := hash(u.passwordHash)))
    else Ok(u)
  }

  /** A user document in memory, with Mongoose's record of whether the password
      path was modified since the document was created or loaded. */
  class UserDocument {
    var user: User
    var passwordModified: bool

    /** `new User({...})`: every path of a new document counts as modified. */
    constructor Create(u: User)
      ensures user == u && passwordModified
    {
      user := u;
      passwordModified := true;
    }

    /** A document read from the store. */
    constructor Load(u: User)
      ensures user == u && !passwordModified
    {
      user := u;
      passwordModified := false;
    }

    /** `user.passwordHash = plaintext`. */
    method SetPassword(plaintext: string)
      modifies this
      ensures user == old(user).(passwordHash := plaintext) && passwordModified
    {
      user := user.(passwordHash := plaintext);
      passwordModified := true;
    }

    /** `user.name = name`: the schema trims it. */
    method SetName(name: string)
      modifies this
      ensures user == old(user).(name := Trim(name)) && passwordModified == old(passwordModified)
    {
      user := user.(name := Trim(name));
    }

    /** `user.phone = phone`. */
    method SetPhone(phone: string)
      modifies this
      ensures user == old(user).(phone := phone) && passwordModified == old(passwordModified)
    {
      user := user.(phone := phone);
    }

    /** `user.email = email`: the schema lower-cases it. */
    method SetEmail(email: string)
      modifies this
      ensures user == old(user).(email := ToLower(email)) && passwordModified == old(passwordModified)
    {
      user := user.(email := ToLower(email));
    }

    /** The validation step of `save()` and then the pre-save hook, which hashes the
        password in place when it was modified. */
    method Save(hash: string -> string) returns (r: Result<User>)
      modifies this
      ensures r == Saved(old(user), old(passwordModified), hash)
      ensures r.Ok? ==> user == r.value && !passwordModified
      ensures r.Err? ==> user == old(user) && passwordModified == old(passwordModified)
    {
      if !UserValid(user) {
        return Err(UserValidationFailed);
      }
      if passwordModified {
        user := user.(passwordHash := hash(user.passwordHash));
        passwordModified := false;
      }
      r := Ok(user);
    }
  }

  /** Saving a loaded user again without touching the password never hashes the
      stored hash a second time. */
  lemma SaveWithoutPasswordChangeKeepsHash(u: User, hash: string -> string)
    requires UserValid(u)
    ensures Saved(u, false, hash) == Ok(u)
  {
  }

  /** `comparePassword`: the candidate hashes to the stored hash. */
  predicate PasswordMatches(u: User, candidate: string, hash: string -> string) {
    hash(candidate) == u.passwordHash
  }

  /** After a save that set `password`, exactly that password compares equal (for a
      hash that tells passwords apart). */
  lemma SavedPasswordMatches(u: User, hash: string -> string, other: string)
    requires UserValid(u)
    requires hash(other) != hash(u.passwordHash)
    ensures PasswordMatches(Saved(u, true, hash).value, u.passwordHash, hash)
    ensures !PasswordMatches(Saved(u, true, hash).value, other, hash)
  {
  }

  /** The unique index on e-mail. */
  predicate UniqueEmails(users: map<Id, User>) {
    forall a, b :: a in users && b in users && a != b ==> users[a].email != users[b].email
  }

  predicate EmailTaken(users: map<Id, User>, email: string) {
    exists id :: id in users && users[id].email == email
  }

  /** Storing a user under `id` keeps e-mails unique when no other user has its e-mail. */
  lemma StoreKeepsUniqueEmails(users: map<Id, User>, id: Id, u: User)
    requires UniqueEmails(users)
    requires forall other :: other in users && other != id ==> users[other].email != u.email
    ensures UniqueEmails(users[id := u])
  {
  }

  function OptionalString(s: Option<string>): JsonValue {
    match s
    case None => JNull
    case Some(v) => JStr(v)
  }

  /** `toObject({ virtuals: true })`: the stored fields plus the `id` and `role` virtuals. */
  function ToObject(id: Id, u: User): (o: JsonObject)
    ensures "passwordHash" in o && "role" in o && o["role"] == JStr(Role(u))
  {
    map[
      "_id" := JStr(id), "id" := JStr(id), "name" := JStr(u.name), "email" := JStr(u.email),
      "passwordHash" := JStr(u.passwordHash), "phone" := JStr(u.phone), "isAdmin" := JBool(u.isAdmin),
      "avatar" := OptionalString(u.avatar), "isActive" := JBool(u.isActive),
      "createdAt" := JNum(u.createdAt as real), "role" := JStr(Role(u))]
  }

  /** `toJSON`: the object form with the password hash removed and nothing else changed. */
  function ToJson(id: Id, u: User): (j: JsonObject)
    ensures "passwordHash" !in j
    ensures j.Keys == ToObject(id, u).Keys - {"passwordHash"}
    ensures forall k :: k in j ==> j[k] == ToObject(id, u)[k]
  {
    ToObject(id, u) - {"passwordHash"}
  }

  /** No value in the JSON form is the password hash field, whatever the user. */
  lemma ToJsonHidesHash(id: Id, u: User)
    ensures forall k :: k in ToJson(id, u) ==> k != "passwordHash"
    ensures ToJson(id, u)["email"] == JStr(u.email) && ToJson(id, u)["role"] == JStr(Role(u))
  {
  }
}
