/** The account service: registration, the two login paths, the profile read,
    the profile update with its field rules and e-mail check, and the password
    change. Hashing is a parameter `hash` (bcrypt); a token is represented by the
    claims it is signed with. */
module AuthService {
  import opened Common
  import opened JsText
  import opened UserModel
  import opened Store
  import opened AuthMiddleware

  const MissingFields: string := "Please provide all required fields"
  const UserExists: string := "User already exists with this email"
  const AdminEmail: string := "admin@gmail.com"
  const AdminPassword: string := "admin123"
  const InvalidAdminCredentials: string := "Invalid admin credentials"
  const InvalidCredentials: string := "Invalid credentials"
  const UserNotFound: string := "User not found"
  const EmailInUse: string := "Email is already in use"
  const WrongCurrentPassword: string := "Current password is incorrect"
  const PasswordChanged: string := "Password changed successfully"

  // ---------------------------------------------------------------------------
  // registerUser

  /** The registration body; `isAdmin` is taken from it as given. */
  datatype Registration = Registration(name: Option<string>, email: Option<string>, password: Option<string>,
                                       phone: Option<string>, isAdmin: Option<bool>)

  /** The user `registerUser` builds, before saving. */
  function Registered(data: Registration, now: int): User
    requires Supplied(data.name) && Supplied(data.email) && Supplied(data.password)
  {
    NewUser(data.name.value, data.email.value, data.password.value, data.phone.GetOr(""), data.isAdmin.GetOr(false), now)
  }

  /** `registerUser` up to the write: name, e-mail and password are required (an
      empty string counts as missing); an e-mail already stored (after the
      lower-casing the schema also applies to the query) is refused; the user is
      saved with its password hashed. */
  function RegisterOutcome(users: map<Id, User>, data: Registration, hash: string -> string, now: int): (r: Result<User>)
    ensures !(Supplied(data.name) && Supplied(data.email) && Supplied(data.password)) ==> r == Err(MissingFields)
    ensures (Supplied(data.name) && Supplied(data.email) && Supplied(data.password)
             && EmailTaken(users, ToLower(data.email.value)))
            ==> r == Err(UserExists)
    ensures r.Ok? ==>
              && Supplied(data.name) && Supplied(data.email) && Supplied(data.password)
              && r.value.email == ToLower(data.email.value) && !EmailTaken(users, r.value.email)
              && r.value.name == Trim(data.name.value)
              && r.value.passwordHash == hash(data.password.value)
              && r.value.phone == data.phone.GetOr("") && r.value.isAdmin == data.isAdmin.GetOr(false)
              && r.value.isActive && r.value.avatar == None
    ensures r.Err? ==> r.error in {MissingFields, UserExists, UserValidationFailed}
    ensures r.Ok? <==> && Supplied(data.name) && Supplied(data.email) && Supplied(data.password)
                       && !EmailTaken(users, ToLower(data.email.value))
                       && UserValid(Registered(data, now))
  {
    if !(Supplied(data.name) && Supplied(data.email) && Supplied(data.password)) then Err(MissingFields)
    else if EmailTaken(users, ToLower(data.email.value)) then Err(UserExists)
    else Saved(Registered(data, now), true, hash)
  }

  /** A registration without a phone number never succeeds: the default "" fails
      the schema's required phone. */
  lemma RegisterWithoutPhoneFails(users: map<Id, User>, data: Registration, hash: string -> string, now: int)
    requires data.phone.None? || data.phone == Some("")
    ensures RegisterOutcome(users, data, hash, now).Err?
  {
  }

  /** `registerUser`: stores the new user; the token carries `isAdmin` false
      whatever the body said. */
  method Register(db: Db, data: Registration, hash: string -> string, now: int, newId: Id) returns (r: Result<Claims>)
    requires db.Valid() && newId !in db.users
    modifies db
    ensures db.Valid()
    ensures r.Ok? <==> RegisterOutcome(old(db.users), data, hash, now).Ok?
    ensures r.Err? ==> r.error == RegisterOutcome(old(db.users), data, hash, now).error && db.users == old(db.users)
    ensures r.Ok? ==> r.value == Claims(newId, false)
                      && db.users == old(db.users)[newId := RegisterOutcome(old(db.users), data, hash, now).value]
    ensures db.hotels == old(db.hotels) && db.rooms == old(db.rooms)
    ensures db.roomOrder == old(db.roomOrder) && db.bookings == old(db.bookings)
  {
    if !(Supplied(data.name) && Supplied(data.email) && Supplied(data.password)) {
      return Err(MissingFields);
    }
    if EmailTaken(db.users, ToLower(data.email.value)) {
      return Err(UserExists);
    }
    var doc := new UserDocument.Create(Registered(data, now));
    var saved := doc.Save(hash);
    if saved.Err? {
      return Err(saved.error);
    }
    StoreKeepsUniqueEmails(db.users, newId, saved.value);
    db.users := db.users[newId := saved.value];
    r := Ok(Claims(newId, false));
  }

  // ---------------------------------------------------------------------------
  // loginUser

  datatype Credentials = Credentials(email: string, password: string, isAdmin: bool)

  /** `loginUser`. With `isAdmin` the credentials must equal the hardcoded pair and
      the token names the administrator; otherwise an active user with the
      (lower-cased) e-mail must exist and the password must match its hash. An
      unknown e-mail and a wrong password give the same message. */
  function LoginOutcome(users: map<Id, User>, c: Credentials, hash: string -> string): (r: Result<Claims>)
    requires UniqueEmails(users)
    ensures c.isAdmin ==> (r.Ok? <==> c.email == AdminEmail && c.password == AdminPassword)
    ensures c.isAdmin && r.Ok? ==> r.value == Claims("admin", true)
    ensures c.isAdmin && r.Err? ==> r.error == InvalidAdminCredentials
    ensures !c.isAdmin && r.Err? ==> r.error == InvalidCredentials
    ensures !c.isAdmin ==>
              (r.Ok? <==> exists id :: id in users && users[id].isActive && users[id].email == ToLower(c.email)
                                       && PasswordMatches(users[id], c.password, hash))
    ensures !c.isAdmin && r.Ok? ==> var id := r.value.userId;
              && !r.value.isAdmin
              && id in users && users[id].isActive && users[id].email == ToLower(c.email)
              && PasswordMatches(users[id], c.password, hash)
  {
    if c.isAdmin then
      if c.email == AdminEmail && c.password == AdminPassword then Ok(Claims("admin", true))
      else Err(InvalidAdminCredentials)
    else
      var email := ToLower(c.email);
      if !(exists id :: id in users && users[id].isActive && users[id].email == email) then Err(InvalidCredentials)
      else
        var id :| id in users && users[id].isActive && users[id].email == email;
        if PasswordMatches(users[id], c.password, hash) then Ok(Claims(id, false)) else Err(InvalidCredentials)
  }

  /** Logging in as a soft-deleted user fails exactly as an unknown e-mail does
      (stored e-mails are lower-case). */
  lemma InactiveUserCannotLogIn(users: map<Id, User>, id: Id, password: string, hash: string -> string)
    requires UniqueEmails(users) && id in users && !users[id].isActive && IsLower(users[id].email)
    ensures LoginOutcome(users, Credentials(users[id].email, password, false), hash) == Err(InvalidCredentials)
  {
    LowerIsFixed(users[id].email);
  }

  /** The login token of a regular user is accepted by `authenticateToken` and
      attaches that user, as long as the user is still active. */
  lemma LoginTokenAuthenticates(users: map<Id, User>, c: Credentials, hash: string -> string,
                                header: Option<string>, verify: string -> Verification)
    requires UniqueEmails(users) && !c.isAdmin && LoginOutcome(users, c, hash).Ok?
    requires ExtractToken(header).Some? && verify(ExtractToken(header).value) == Verified(LoginOutcome(users, c, hash).value)
    ensures var id := LoginOutcome(users, c, hash).value.userId;
            AuthenticateOutcome(header, verify, users) == Proceed(PrincipalOf(id, users[id]))
  {
    var id := LoginOutcome(users, c, hash).value.userId;
    assert id != "admin" || !LoginOutcome(users, c, hash).value.isAdmin;
  }

  // ---------------------------------------------------------------------------
  // getUserProfile

  /** `getUserProfile`: an active user, without the password hash. */
  function GetUserProfile(users: map<Id, User>, userId: Id): (r: Result<JsonObject>)
    ensures r.Ok? <==> userId in users && users[userId].isActive
    ensures r.Ok? ==> "passwordHash" !in r.value && r.value == ToJson(userId, users[userId])
    ensures r.Err? ==> r.error == UserNotFound
  {
    if userId in users && users[userId].isActive then Ok(ToJson(userId, users[userId])) else Err(UserNotFound)
  }

  // ---------------------------------------------------------------------------
  // updateProfile

  /** The fields of a profile update body that are looked at. */
  datatype ProfileData = ProfileData(name: Option<string>, email: Option<string>, phone: Option<string>)

  predicate EmailTakenByOther(users: map<Id, User>, self: Id, email: string) {
    exists id :: id in users && id != self && users[id].email == email
  }

  /** The e-mail is to change: given, and different from the stored one as written. */
  predicate EmailChanges(u: User, data: ProfileData) {
    Supplied(data.email) && data.email.value != u.email
  }

  /** The user after the assignments of `updateProfile`. */
  function Assigned(u: User, data: ProfileData): User {
    u.(name := if Supplied(data.name) then Trim(data.name.value) else u.name,
       phone := if Supplied(data.phone) then data.phone.value else u.phone,
       email := if EmailChanges(u, data) then ToLower(data.email.value) else u.email)
  }

  /** `updateProfile` up to the write: the user must exist (active or not); name,
      phone and e-mail are assigned only when given, and the e-mail only when it
      differs from the stored one, in which case no other user may have it; the
      save validators run and the password is not re-hashed. */
  function UpdateProfileOutcome(users: map<Id, User>, userId: Id, data: ProfileData, hash: string -> string): (r: Result<User>)
    ensures userId !in users ==> r == Err(UserNotFound)
    ensures (userId in users && EmailChanges(users[userId], data)
             && EmailTakenByOther(users, userId, ToLower(data.email.value)))
            ==> r == Err(EmailInUse)
    ensures r.Ok? ==> userId in users && UserValid(r.value)
    ensures r.Ok? ==> var u := users[userId];
              && r.value.name == (if Supplied(data.name) then Trim(data.name.value) else u.name)
              && r.value.phone == (if Supplied(data.phone) then data.phone.value else u.phone)
              && r.value.email == (if EmailChanges(u, data) then ToLower(data.email.value) else u.email)
              && r.value.(name := u.name, phone := u.phone, email := u.email) == u
    ensures r.Ok? && EmailChanges(users[userId], data) ==> !EmailTakenByOther(users, userId, r.value.email)
    ensures r.Err? ==> r.error in {UserNotFound, EmailInUse, UserValidationFailed}
    ensures r.Ok? <==> && userId in users
                       && !(EmailChanges(users[userId], data) && EmailTakenByOther(users, userId, ToLower(data.email.value)))
                       && UserValid(Assigned(users[userId], data))
  {
    if userId !in users then Err(UserNotFound)
    else
      var u := users[userId];
      if EmailChanges(u, data) && EmailTakenByOther(users, userId, ToLower(data.email.value)) then Err(EmailInUse)
      else Saved(Assigned(u, data), false, hash)
  }

  /** Re-sending the stored e-mail never triggers the in-use check, whoever else
      is stored. */
  lemma SameEmailSkipsCheck(users: map<Id, User>, userId: Id, data: ProfileData, hash: string -> string)
    requires userId in users && data.email == Some(users[userId].email)
    ensures UpdateProfileOutcome(users, userId, data, hash).Err? ==>
              UpdateProfileOutcome(users, userId, data, hash).error != EmailInUse
  {
  }

  /** A successful profile update keeps e-mails unique. */
  lemma UpdateProfileKeepsUniqueEmails(users: map<Id, User>, userId: Id, data: ProfileData, hash: string -> string)
    requires UniqueEmails(users)
    requires UpdateProfileOutcome(users, userId, data, hash).Ok?
    ensures UniqueEmails(users[userId := UpdateProfileOutcome(users, userId, data, hash).value])
  {
    var u := UpdateProfileOutcome(users, userId, data, hash).value;
    StoreKeepsUniqueEmails(users, userId, u);
  }

  /** The assignments of `updateProfile` on the loaded document, with the e-mail
      check between them; reports whether the check refused the new e-mail. */
  method AssignProfile(doc: UserDocument, users: map<Id, User>, userId: Id, data: ProfileData) returns (inUse: bool)
    modifies doc
    ensures inUse <==> EmailChanges(old(doc.user), data) && EmailTakenByOther(users, userId, ToLower(data.email.value))
    ensures !inUse ==> doc.user == Assigned(old(doc.user), data)
    ensures doc.passwordModified == old(doc.passwordModified)
  {
    ghost var loaded := doc.user;
    if Supplied(data.name) {
      doc.SetName(data.name.value);
    }
    if Supplied(data.phone) {
      doc.SetPhone(data.phone.value);
    }
    assert doc.user.email == loaded.email;
    inUse := false;
    if Supplied(data.email) && data.email.value != doc.user.email {
      if EmailTakenByOther(users, userId, ToLower(data.email.value)) {
        return true;
      }
      doc.SetEmail(data.email.value);
    }
  }

  /** `updateProfile`: assigns the given fields on the loaded user and saves it; the
      new token carries the user's admin flag. */
  method UpdateProfile(db: Db, userId: Id, data: ProfileData, hash: string -> string) returns (r: Result<Claims>)
    requires db.Valid()
    modifies db
    ensures db.Valid()
    ensures r.Ok? <==> UpdateProfileOutcome(old(db.users), userId, data, hash).Ok?
    ensures r.Err? ==> r.error == UpdateProfileOutcome(old(db.users), userId, data, hash).error
    ensures r.Err? ==> db.users == old(db.users)
    ensures r.Ok? ==> var u := UpdateProfileOutcome(old(db.users), userId, data, hash).value;
                      r.value == Claims(userId, u.isAdmin) && db.users == old(db.users)[userId := u]
    ensures db.hotels == old(db.hotels) && db.rooms == old(db.rooms)
    ensures db.roomOrder == old(db.roomOrder) && db.bookings == old(db.bookings)
  {
    if userId !in db.users {
      return Err(UserNotFound);
    }
    var doc := new UserDocument.Load(db.users[userId]);
    var inUse := AssignProfile(doc, db.users, userId, data);
    if inUse {
      return Err(EmailInUse);
    }
    var saved := doc.Save(hash);
    assert saved == UpdateProfileOutcome(db.users, userId, data, hash);
    if saved.Err? {
      return Err(saved.error);
    }
    UpdateProfileKeepsUniqueEmails(db.users, userId, data, hash);
    db.users := db.users[userId := saved.value];
    r := Ok(Claims(userId, saved.value.isAdmin));
  }

  // ---------------------------------------------------------------------------
  // changePassword

  /** `changePassword` up to the write: the user must exist and the current
      password must match; the new password is validated in plaintext and then
      hashed; nothing else changes. */
  function ChangePasswordOutcome(users: map<Id, User>, userId: Id, current: string, newPassword: string,
                                 hash: string -> string): (r: Result<User>)
    ensures userId !in users ==> r == Err(UserNotFound)
    ensures userId in users && !PasswordMatches(users[userId], current, hash) ==> r == Err(WrongCurrentPassword)
    ensures r.Ok? ==> userId in users && PasswordMatches(users[userId], current, hash)
                      && |newPassword| >= MinPassword
                      && r.value == users[userId].(passwordHash := hash(newPassword))
    ensures r.Err? ==> r.error in {UserNotFound, WrongCurrentPassword, UserValidationFailed}
    ensures r.Ok? <==> userId in users && PasswordMatches(users[userId], current, hash)
                       && UserValid(users[userId].(passwordHash := newPassword))
    ensures userId in users && PasswordMatches(users[userId], current, hash) && UserValid(users[userId])
            ==> (r.Ok? <==> |newPassword| >= MinPassword)
  {
    if userId !in users then Err(UserNotFound)
    else if !PasswordMatches(users[userId], current, hash) then Err(WrongCurrentPassword)
    else Saved(users[userId].(passwordHash := newPassword), true, hash)
  }

  /** After a change, the new password matches and (for a hash that tells them
      apart) the old one no longer does. */
  lemma NewPasswordTakesOver(users: map<Id, User>, userId: Id, current: string, newPassword: string, hash: string -> string)
    requires ChangePasswordOutcome(users, userId, current, newPassword, hash).Ok?
    requires hash(current) != hash(newPassword)
    ensures PasswordMatches(ChangePasswordOutcome(users, userId, current, newPassword, hash).value, newPassword, hash)
    ensures !PasswordMatches(ChangePasswordOutcome(users, userId, current, newPassword, hash).value, current, hash)
  {
  }

  /** `changePassword`: sets the plaintext on the loaded user and saves it. */
  method ChangePassword(db: Db, userId: Id, current: string, newPassword: string, hash: string -> string)
    returns (r: Result<string>)
    requires db.Valid()
    modifies db
    ensures db.Valid()
    ensures var o := ChangePasswordOutcome(old(db.users), userId, current, newPassword, hash);
            && (r.Ok? <==> o.Ok?)
            && (r.Ok? ==> r.value == PasswordChanged && db.users == old(db.users)[userId := o.value])
            && (r.Err? ==> r.error == o.error && db.users == old(db.users))
    ensures db.hotels == old(db.hotels) && db.rooms == old(db.rooms)
    ensures db.roomOrder == old(db.roomOrder) && db.bookings == old(db.bookings)
  {
    if userId !in db.users {
      return Err(UserNotFound);
    }
    var doc := new UserDocument.Load(db.users[userId]);
    if !PasswordMatches(doc.user, current, hash) {
      return Err(WrongCurrentPassword);
    }
    doc.SetPassword(newPassword);
    var saved := doc.Save(hash);
    if saved.Err? {
      return Err(saved.error);
    }
    StoreKeepsUniqueEmails(db.users, userId, saved.value);
    db.users := db.users[userId := saved.value];
    r := Ok(PasswordChanged);
  }
}
