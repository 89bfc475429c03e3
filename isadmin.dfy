/**
 * The role gate (isAdmin). It re-verifies the token itself and lets the
 * request through only when the verified `user.role` is exactly "admin". It
 * writes nothing: it is a function of the header, LOGINTOKEN and the clock.
 */
module IsAdmin {
  import opened Wrappers
  import opened Ids
  import opened Jwt
  import opened Http
  import opened UserModel
  import AuthCheck

  datatype AdminOutcome = Proceed | Refuse(response: Response)

  /** The verified payload carries a `user` whose role is the string "admin". */
  predicate IsAdminPayload(p: Payload) {
    p.SessionPayload? && p.user.role == "admin"
  }

  function CheckAdmin(header: Option<TokenText>, loginToken: Option<string>, now: int): (r: AdminOutcome)
    // next() is called exactly for a present, verifying token whose user.role is "admin"
    ensures r.Proceed? <==>
      && Truthy(header) && IsSet(loginToken)
      && Verify(loginToken.value, header.value, now).Ok?
      && IsAdminPayload(Verify(loginToken.value, header.value, now).value)
    ensures !Truthy(header) ==> r == Refuse(Failure(401, NoTokenFound))
    // exactly a verified session payload with another role is told it is not authorised
    ensures r == Refuse(Failure(401, NotAuthorized)) <==>
      && Truthy(header) && IsSet(loginToken) && Verify(loginToken.value, header.value, now).Ok?
      && Verify(loginToken.value, header.value, now).value.SessionPayload?
      && !IsAdminPayload(Verify(loginToken.value, header.value, now).value)
    // anything else that is refused (no secret, failed verify, no `user` field) gets the generic message
    ensures Truthy(header) && r != Refuse(Failure(401, NotAuthorized)) && r.Refuse?
        ==> r == Refuse(Failure(401, TokenNotValid))
  {
    if !Truthy(header) then Refuse(Failure(401, NoTokenFound))
    else if !IsSet(loginToken) then Refuse(Failure(401, TokenNotValid))
    else
      match Verify(loginToken.value, header.value, now)
      case Err(_) => Refuse(Failure(401, TokenNotValid))
      // reading `.role` of an undefined `user` throws, and the catch sends the generic message
      case Ok(ResetPayload(_)) => Refuse(Failure(401, TokenNotValid))
      case Ok(SessionPayload(c)) =>
        if c.role != "admin" then Refuse(Failure(401, NotAuthorized)) else Proceed
  }

  /** An admin route: `authCheck, isAdmin, handler`. The result says whether the handler runs. */
  function AdminRoute(header: Option<TokenText>, loginToken: Option<string>, now: int): (r: AdminOutcome)
    // the handler runs only after authCheck attached the claims of an admin
    ensures r.Proceed? ==> header.Some? && header.value.Compact? && header.value.token.payload.SessionPayload?
    ensures r.Proceed? ==> AuthCheck.Authenticate(header, loginToken, now) == AuthCheck.Attach(Some(header.value.token.payload.user))
    ensures r.Proceed? ==> header.value.token.payload.user.role == "admin"
    // authCheck's own rejections are what the client sees; isAdmin never runs after them
    ensures AuthCheck.Authenticate(header, loginToken, now).Deny? ==> r == Refuse(AuthCheck.Authenticate(header, loginToken, now).response)
  {
    match AuthCheck.Authenticate(header, loginToken, now)
    case Deny(res) => Refuse(res)
    case Attach(_) => CheckAdmin(header, loginToken, now)
  }

  /**
   * The chain reaches the handler only with a present, verifying token whose
   * role is "admin"; and since isAdmin repeats every check authCheck makes, the
   * chain answers exactly as isAdmin alone does.
   */
  lemma AdminRouteIsCheckAdmin(header: Option<TokenText>, loginToken: Option<string>, now: int)
    ensures AdminRoute(header, loginToken, now) == CheckAdmin(header, loginToken, now)
    ensures AdminRoute(header, loginToken, now).Proceed? <==>
      && Truthy(header) && IsSet(loginToken)
      && header.value.Compact? && header.value.token.secret == loginToken.value
      && now < header.value.token.exp
      && IsAdminPayload(header.value.token.payload)
  {
    var auth := AuthCheck.Authenticate(header, loginToken, now);
    if auth.Attach? {
      assert AdminRoute(header, loginToken, now) == CheckAdmin(header, loginToken, now);
    } else if !Truthy(header) {
      assert CheckAdmin(header, loginToken, now) == Refuse(Failure(401, NoTokenFound));
    } else {
      assert CheckAdmin(header, loginToken, now) == Refuse(Failure(401, TokenNotValid));
    }
  }

  /** A reset-shaped `{_id}` payload never passes isAdmin, even under the session secret. */
  lemma ResetTokenNeverAdmin(id: ObjectId, secret: string, exp: int, loginToken: Option<string>, now: int)
    ensures CheckAdmin(Some(Compact(Token(secret, ResetPayload(id), exp))), loginToken, now)
         == Refuse(Failure(401, TokenNotValid))
  {
  }

  /** A login token of an account reaches an admin handler, before it expires, exactly when the account is an admin. */
  lemma LoginTokenAdmitted(loginToken: Option<string>, u: User, issued: int, now: int)
    requires IsSet(loginToken)
    requires issued <= now < issued + SessionLifetime
    ensures var t := Token(loginToken.value, SessionPayload(ClaimsOf(u)), issued + SessionLifetime);
      && (AdminRoute(Some(Compact(t)), loginToken, now).Proceed? <==> u.role == AdminRole)
      && (u.role == UserRole ==> AdminRoute(Some(Compact(t)), loginToken, now) == Refuse(Failure(401, NotAuthorized)))
  {
  }
}
