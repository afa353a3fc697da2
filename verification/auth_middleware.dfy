/** The authentication middleware `protect` and the three role gates `admin`,
    `adminMod` and `adminContributor`.

    `jwt.verify` is an oracle: a function from the cookie's token to the `id`
    it decodes to, or None where verification throws.  The User collection is
    a map from id to record. */
module AuthMiddleware {
  import opened Common
  import opened UserModel
  import opened Http

  const NoTokenMessage: string := "Not authorized, no token"
  const TokenFailedMessage: string := "Not authorized, token failed"
  const UnauthorizedStatus: int := 401

  /** How a middleware hands control on: `next()` is called, or an error is
      thrown to Express's error handler with the given message. */
  datatype Flow = Next | Thrown(message: string)

  /** The three outcomes of `protect`. */
  datatype Authentication =
    | NoToken
    | TokenFailed
    | Verified(user: Option<User>)   // None: no record for the decoded id (req.user = null)

  /** JavaScript truthiness of the cookie: a missing cookie and the empty
      string both take the "no token" branch. */
  predicate HasToken(token: Option<string>): (b: bool)
    ensures token.None? ==> !b
    ensures token == Some("") ==> !b
    ensures b ==> token.Some? && |token.value| > 0
    ensures token.Some? && token.value != "" ==> b
  {
    token.Some? && token.value != ""
  }

  /** The decision `protect` makes on a request's cookie. */
  function Authenticate(token: Option<string>, verify: string -> Option<UserId>,
                        users: map<UserId, User>): (a: Authentication)
    ensures a.NoToken? <==> !HasToken(token)
    ensures a.TokenFailed? <==> HasToken(token) && verify(token.value).None?
    ensures a.Verified? ==>
      HasToken(token) && verify(token.value).Some? &&
      (a.user.Some? <==> verify(token.value).value in users)
  {
    if !HasToken(token) then NoToken
    else match verify(token.value)
      case None => TokenFailed
      case Some(id) => Verified(if id in users then Some(WithoutPassword(users[id])) else None)
  }

  /** A user attached by `protect` never carries a password, and apart from
      that is exactly the stored record for the decoded id. */
  lemma VerifiedUserIsStoredRecordWithoutPassword(token: Option<string>,
      verify: string -> Option<UserId>, users: map<UserId, User>)
    requires Authenticate(token, verify, users).Verified?
    requires Authenticate(token, verify, users).user.Some?
    ensures var u := Authenticate(token, verify, users).user.value;
      var id := verify(token.value).value;
      u.password.None? && id in users && u.(password := users[id].password) == users[id]
  {
  }

  /** `protect`: read the cookie; with no token, or one that fails to verify,
      set status 401 and throw; otherwise attach the user record (without its
      password, or null when none exists) and call next. */
  method Protect(req: Request, res: HttpResponse, verify: string -> Option<UserId>,
                 users: map<UserId, User>) returns (flow: Flow)
    modifies req, res
    ensures req.token == old(req.token) && res.body == old(res.body)
    ensures match Authenticate(old(req.token), verify, users)
      case NoToken =>
        flow == Thrown(NoTokenMessage) && res.status == UnauthorizedStatus && req.user == old(req.user)
      case TokenFailed =>
        flow == Thrown(TokenFailedMessage) && res.status == UnauthorizedStatus && req.user == old(req.user)
      case Verified(u) =>
        flow == Next && res.status == old(res.status) &&
        req.user == (if u.Some? then Present(u.value) else Null)
  {
    var token := req.token;
    if token.Some? && token.value != "" {
      var decoded := verify(token.value);
      if decoded.Some? {
        var id := decoded.value;
        req.user := if id in users then Present(WithoutPassword(users[id])) else Null;
        flow := Next;
      } else {
        res.Status(UnauthorizedStatus);
        flow := Thrown(TokenFailedMessage);
      }
    } else {
      res.Status(UnauthorizedStatus);
      flow := Thrown(NoTokenMessage);
    }
  }

  /** The three role gates. */
  datatype Gate = Admin | AdminMod | AdminContributor

  /** The fixed denial message of each gate; all three open with "Not
      authorized as an admin". */
  function DenialMessage(gate: Gate): (m: string)
    ensures "Not authorized as an admin" <= m
  {
    match gate
    case Admin => "Not authorized as an admin"
    case AdminMod => "Not authorized as an admin or moderator"
    case AdminContributor => "Not authorized as an admin or contributor"
  }

  /** Each gate's message is its own: the message tells which gate denied. */
  lemma DenialMessagesDistinct(g1: Gate, g2: Gate)
    ensures DenialMessage(g1) == DenialMessage(g2) <==> g1 == g2
  {
  }

  datatype Decision = Permit | Deny(message: string)

  /** The test each gate runs on `req.user`, written as the gates write it:
      the user must be present and its role must equal one of the listed
      strings. */
  function Check(gate: Gate, user: Option<User>): (d: Decision)
    ensures d.Deny? ==> d.message == DenialMessage(gate)
  {
    var allowed := match gate
      case Admin => user.Some? && user.value.role == "admin"
      case AdminMod => user.Some? && (user.value.role == "admin" || user.value.role == "moderator")
      case AdminContributor => user.Some? && (user.value.role == "admin" || user.value.role == "contributor");
    if allowed then Permit else Deny(DenialMessage(gate))
  }

  /** The policy as a table: the set of roles each gate admits. */
  function PermittedRoles(gate: Gate): set<string> {
    match gate
    case Admin => {"admin"}
    case AdminMod => {"admin", "moderator"}
    case AdminContributor => {"admin", "contributor"}
  }

  /** Each gate is an exact membership test against its table entry. */
  lemma CheckIsExactMembership(gate: Gate, user: Option<User>)
    ensures Check(gate, user) == Permit <==> user.Some? && user.value.role in PermittedRoles(gate)
  {
  }

  /** An absent (undefined or null) user is denied by every gate. */
  lemma AbsentUserIsDenied(gate: Gate)
    ensures Check(gate, None) == Deny(DenialMessage(gate))
  {
  }

  /** Passing `admin` implies passing both other gates. */
  lemma AdminPassesEveryGate(user: Option<User>, gate: Gate)
    requires Check(Admin, user) == Permit
    ensures Check(gate, user) == Permit
  {
  }

  /** No hierarchy is inferred: a moderator fails `admin` and
      `adminContributor`, a contributor fails `admin` and `adminMod`, and a
      plain user fails all three. */
  lemma NoRoleHierarchy(user: User)
    ensures user.role == "moderator" ==>
      Check(Admin, Some(user)).Deny? && Check(AdminMod, Some(user)) == Permit &&
      Check(AdminContributor, Some(user)).Deny?
    ensures user.role == "contributor" ==>
      Check(Admin, Some(user)).Deny? && Check(AdminMod, Some(user)).Deny? &&
      Check(AdminContributor, Some(user)) == Permit
    ensures user.role == "user" ==>
      Check(Admin, Some(user)).Deny? && Check(AdminMod, Some(user)).Deny? &&
      Check(AdminContributor, Some(user)).Deny?
  {
  }

  /** Running a gate as middleware: permit calls next; deny sets status 401
      and throws the gate's message.  The gate never touches `req`. */
  method Guard(gate: Gate, req: Request, res: HttpResponse) returns (flow: Flow)
    modifies res
    ensures Check(gate, req.user.AsOption()) == Permit ==> flow == Next && res.status == old(res.status)
    ensures Check(gate, req.user.AsOption()).Deny? ==>
      flow == Thrown(DenialMessage(gate)) && res.status == UnauthorizedStatus
    ensures res.body == old(res.body)
    ensures req.user == old(req.user) && req.token == old(req.token)
  {
    var d := Check(gate, req.user.AsOption());
    if d == Permit {
      flow := Next;
    } else {
      res.Status(UnauthorizedStatus);
      flow := Thrown(d.message);
    }
  }
}
