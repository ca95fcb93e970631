/** The request guards: `authenticateToken` (token extraction, the hardcoded admin
    principal, the user lookup and the mapping of verification errors to
    responses), `requireAdmin` and `optionalAuth`. Token verification is a
    parameter `verify`, standing for `jwt.verify` with the server's secret. */
module AuthMiddleware {
  import opened Common
  import opened JsText
  import opened UserModel

  const AccessTokenRequired: string := "Access token required"
  const InvalidTokenOrUser: string := "Invalid token or user not found"
  const InvalidToken: string := "Invalid token"
  const TokenExpired: string := "Token expired"
  const AuthServerError: string := "Server error during authentication"
  const AdminAccessRequired: string := "Admin access required"

  /** The token payload `{ userId, isAdmin }`. */
  datatype Claims = Claims(userId: Id, isAdmin: bool)

  /** What verifying a token yields: its payload, or the error thrown, by name. */
  datatype Verification = Verified(claims: Claims) | JsonWebTokenError | TokenExpiredError | OtherFailure

  /** The `req.user` a guard attaches (the user without its password hash). */
  datatype Principal = Principal(id: Id, name: string, email: string, phone: string, isAdmin: bool)

  /** The synthesized administrator, never looked up in the store. */
  const AdminPrincipal: Principal := Principal("admin", "Administrator", "admin@gmail.com", "1234567890", true)

  function PrincipalOf(id: Id, u: User): Principal {
    Principal(id, u.name, u.email, u.phone, u.isAdmin)
  }

  /** `authHeader && authHeader.split(' ')[1]`: the second space-separated field of
      the header, when there is one and it is not empty. The scheme in front is
      not looked at. */
  function ExtractToken(header: Option<string>): (t: Option<string>)
    ensures t.Some? <==> header.Some? && |Split(header.value, ' ')| >= 2 && Split(header.value, ' ')[1] != ""
    ensures t.Some? ==> t.value == Split(header.value, ' ')[1] && ' ' !in t.value
  {
    if header.Some? && |Split(header.value, ' ')| >= 2 && Split(header.value, ' ')[1] != "" then
      Some(Split(header.value, ' ')[1])
    else None
  }

  /** `<scheme> <token>` yields the token whatever the scheme; a header with no
      space in it yields none. */
  lemma {:induction false} TokenAfterAnyScheme(scheme: string, token: string)
    requires ' ' !in scheme && ' ' !in token && token != ""
    ensures ExtractToken(Some(scheme + " " + token)) == Some(token)
    ensures ExtractToken(Some(scheme)) == None
  {
    SplitAfterFirst(scheme, ' ', token);
    SplitNoSeparator(token, ' ');
    assert scheme + " " + token == scheme + [' '] + token;
    SplitNoSeparator(scheme, ' ');
  }

  /** A guard's verdict: continue with a principal, or answer with a status. */
  datatype AuthResult = Proceed(principal: Principal) | Reject(status: int, message: string)

  /** The decision of `authenticateToken`. */
  function AuthenticateOutcome(header: Option<string>, verify: string -> Verification, users: map<Id, User>): (r: AuthResult)
    ensures ExtractToken(header).None? ==> r == Reject(401, AccessTokenRequired)
    ensures ExtractToken(header).Some? ==>
              match verify(ExtractToken(header).value)
              case JsonWebTokenError => r == Reject(401, InvalidToken)
              case TokenExpiredError => r == Reject(401, TokenExpired)
              case OtherFailure => r == Reject(500, AuthServerError)
              case Verified(c) =>
                if c.isAdmin && c.userId == "admin" then r == Proceed(AdminPrincipal)
                else if c.userId in users && users[c.userId].isActive then r == Proceed(PrincipalOf(c.userId, users[c.userId]))
                else r == Reject(401, InvalidTokenOrUser)
  {
    match ExtractToken(header)
    case None => Reject(401, AccessTokenRequired)
    case Some(token) =>
      match verify(token)
      case JsonWebTokenError => Reject(401, InvalidToken)
      case TokenExpiredError => Reject(401, TokenExpired)
      case OtherFailure => Reject(500, AuthServerError)
      case Verified(c) =>
        if c.isAdmin && c.userId == "admin" then Proceed(AdminPrincipal)
        else if c.userId in users && users[c.userId].isActive then Proceed(PrincipalOf(c.userId, users[c.userId]))
        else Reject(401, InvalidTokenOrUser)
  }

  /** A request passes only with a verified token naming the administrator or an
      active stored user; the admin case does not depend on the store at all. */
  lemma AuthenticateProceeds(header: Option<string>, verify: string -> Verification, users: map<Id, User>, other: map<Id, User>)
    ensures AuthenticateOutcome(header, verify, users).Proceed? ==>
              && ExtractToken(header).Some?
              && verify(ExtractToken(header).value).Verified?
              && var c := verify(ExtractToken(header).value).claims;
                 (c.isAdmin && c.userId == "admin") || (c.userId in users && users[c.userId].isActive)
    ensures AuthenticateOutcome(header, verify, users) == Proceed(AdminPrincipal) && "admin" !in users ==>
              AuthenticateOutcome(header, verify, other) == Proceed(AdminPrincipal)
  {
  }

  /** A request with the fields the guards read and write. */
  class Request {
    var authorization: Option<string>
    var user: Option<Principal>

    constructor (authorization: Option<string>)
      ensures this.authorization == authorization && user == None
    {
      this.authorization := authorization;
      user := None;
    }
  }

  /** What a guard does with the response: pass the request on, or answer it. */
  datatype Response = Next | Answer(status: int, message: string)

  /** `authenticateToken`: attaches the principal and continues, or answers. */
  method AuthenticateToken(req: Request, verify: string -> Verification, users: map<Id, User>) returns (resp: Response)
    modifies req
    ensures req.authorization == old(req.authorization)
    ensures var d := AuthenticateOutcome(old(req.authorization), verify, users);
            match d
            case Proceed(p) => resp == Next && req.user == Some(p)
            case Reject(status, message) => resp == Answer(status, message) && req.user == old(req.user)
  {
    var token := ExtractToken(req.authorization);
    if token.None? {
      return Answer(401, AccessTokenRequired);
    }
    var decoded := verify(token.value);
    if decoded.JsonWebTokenError? {
      return Answer(401, InvalidToken);
    } else if decoded.TokenExpiredError? {
      return Answer(401, TokenExpired);
    } else if decoded.OtherFailure? {
      return Answer(500, AuthServerError);
    }
    var c := decoded.claims;
    if c.isAdmin && c.userId == "admin" {
      req.user := Some(AdminPrincipal);
    } else {
      if !(c.userId in users && users[c.userId].isActive) {
        return Answer(401, InvalidTokenOrUser);
      }
      req.user := Some(PrincipalOf(c.userId, users[c.userId]));
    }
    resp := Next;
  }

  /** `requireAdmin`: passes exactly when a principal is attached and is an admin. */
  function RequireAdmin(user: Option<Principal>): (resp: Response)
    ensures resp == Next <==> user.Some? && user.value.isAdmin
    ensures resp != Next ==> resp == Answer(403, AdminAccessRequired)
  {
    if user.None? || !user.value.isAdmin then Answer(403, AdminAccessRequired) else Next
  }

  /** After `authenticateToken`, `requireAdmin` passes for the administrator token
      and, for a stored user, exactly when the stored user is an admin. */
  lemma AdminGate(header: Option<string>, verify: string -> Verification, users: map<Id, User>)
    requires AuthenticateOutcome(header, verify, users).Proceed?
    ensures var p := AuthenticateOutcome(header, verify, users).principal;
            RequireAdmin(Some(p)) == Next <==>
              (p == AdminPrincipal || (p.id in users && users[p.id].isAdmin))
  {
  }

  /** The principal `optionalAuth` attaches: a verified token of an active stored
      user; no administrator shortcut, and any failure leaves the request alone. */
  function OptionalPrincipal(header: Option<string>, verify: string -> Verification, users: map<Id, User>): (p: Option<Principal>)
    ensures p.Some? <==> ExtractToken(header).Some? && verify(ExtractToken(header).value).Verified?
                         && var id := verify(ExtractToken(header).value).claims.userId;
                            id in users && users[id].isActive
    ensures p.Some? ==> var id := verify(ExtractToken(header).value).claims.userId;
                        p.value == PrincipalOf(id, users[id])
  {
    match ExtractToken(header)
    case None => None
    case Some(token) =>
      match verify(token)
      case Verified(c) => if c.userId in users && users[c.userId].isActive then Some(PrincipalOf(c.userId, users[c.userId])) else None
      case _ => None
  }

  /** `optionalAuth`: always continues, attaching a principal when there is one. */
  method OptionalAuth(req: Request, verify: string -> Verification, users: map<Id, User>) returns (resp: Response)
    modifies req
    ensures resp == Next
    ensures req.authorization == old(req.authorization)
    ensures var p := OptionalPrincipal(old(req.authorization), verify, users);
            req.user == if p.Some? then p else old(req.user)
  {
    var token := ExtractToken(req.authorization);
    if token.Some? {
      var decoded := verify(token.value);
      if decoded.Verified? {
        var id := decoded.claims.userId;
        if id in users && users[id].isActive {
          req.user := Some(PrincipalOf(id, users[id]));
        }
      }
    }
    resp := Next;
  }

  /** The administrator token, accepted by `authenticateToken`, attaches nothing
      under `optionalAuth` when no stored user has the id "admin". */
  lemma AdminTokenIsAnonymousWhenOptional(header: Option<string>, verify: string -> Verification, users: map<Id, User>)
    requires ExtractToken(header).Some? && verify(ExtractToken(header).value) == Verified(Claims("admin", true))
    requires "admin" !in users
    ensures AuthenticateOutcome(header, verify, users) == Proceed(AdminPrincipal)
    ensures OptionalPrincipal(header, verify, users) == None
  {
  }
}
