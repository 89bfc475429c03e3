/**
 * The session-token gate (authCheck). The decision depends only on the
 * `x-auth-token` header, the LOGINTOKEN variable and the clock; its one write
 * is `req.user = decoded.user` just before `next()`.
 */
module AuthCheck {
  import opened Wrappers
  import opened Jwt
  import opened Http
  import opened UserModel

  /** Either `next()` after attaching `user`, or a rejection sent to the client. */
  datatype AuthOutcome = Attach(user: Option<Claims>) | Deny(response: Response)

  /** `decoded.user`: a reset-shaped payload has no `user` field, so it is undefined. */
  function UserField(p: Payload): Option<Claims>
  {
    match p
    case SessionPayload(c) => Some(c)
    case ResetPayload(_) => None
  }

  function Authenticate(header: Option<TokenText>, loginToken: Option<string>, now: int): (r: AuthOutcome)
    // next() is called exactly when a token is present, the secret is set and the token verifies under it
    ensures r.Attach? <==> Truthy(header) && IsSet(loginToken) && Verify(loginToken.value, header.value, now).Ok?
    ensures r.Attach? ==> r.user == UserField(Verify(loginToken.value, header.value, now).value)
    // a missing or empty header is reported as such; every other failure gets one generic message
    ensures !Truthy(header) ==> r == Deny(Failure(401, NoTokenFound))
    ensures Truthy(header) && r.Deny? ==> r == Deny(Failure(401, TokenNotValid))
  {
    if !Truthy(header) then Deny(Failure(401, NoTokenFound))
    else if !IsSet(loginToken) then Deny(Failure(401, TokenNotValid))
    else
      match Verify(loginToken.value, header.value, now)
      case Err(_) => Deny(Failure(401, TokenNotValid))
      case Ok(decoded) => Attach(UserField(decoded))
  }

  /** The request object as the gate sees it: the header it reads and the `user` slot it writes. */
  class Request {
    const header: Option<TokenText>
    var user: Option<Claims>

    constructor (header: Option<TokenText>)
      ensures this.header == header && user == None
    {
      this.header := header;
      user := None;
    }

    /** Run authCheck: either next() is called with `user` attached, or a 401 is sent and nothing changes. */
    method RunAuthCheck(loginToken: Option<string>, now: int) returns (nextCalled: bool, response: Response)
      modifies this`user
      ensures var o := Authenticate(header, loginToken, now);
        && (o.Attach? ==> nextCalled && response == NoResponse && user == o.user)
        && (o.Deny? ==> !nextCalled && response == o.response && user == old(user))
      ensures nextCalled <==> response == NoResponse
    {
      var outcome := Authenticate(header, loginToken, now);
      match outcome
      case Attach(u) =>
        user := u;
        nextCalled, response := true, NoResponse;
      case Deny(r) =>
        nextCalled, response := false, r;
    }
  }

  /** A session token for `c`, signed under the configured secret, attaches `c` until it expires. */
  lemma SessionTokenAttaches(loginToken: Option<string>, c: Claims, issued: int, now: int)
    requires IsSet(loginToken)
    requires issued <= now < issued + SessionLifetime
    ensures Sign(loginToken.value, SessionPayload(c), issued, SessionLifetime).Ok?
    ensures var t := Sign(loginToken.value, SessionPayload(c), issued, SessionLifetime).value;
      Authenticate(Some(Compact(t)), loginToken, now) == Attach(Some(c))
  {
  }

  /**
   * The claims login signs for an account come back out of `decoded.user`
   * intact, and the role string reads back as the account's role.
   */
  lemma LoginClaimsAttachIntact(u: User)
    ensures UserField(SessionPayload(ClaimsOf(u))) == Some(ClaimsOf(u))
    ensures var c := UserField(SessionPayload(ClaimsOf(u))).value;
      c.id == u.id && c.email == u.email && ParseRole(c.role) == Some(u.role)
  {
  }

  /** An unset or empty LOGINTOKEN rejects every request, whatever it carries. */
  lemma UnsetSecretRejectsAll(header: Option<TokenText>, loginToken: Option<string>, now: int)
    requires !IsSet(loginToken)
    ensures Authenticate(header, loginToken, now).Deny?
  {
  }
}
