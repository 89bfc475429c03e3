/**
 * The token service, idealised. jsonwebtoken's encoding (base64, HMAC) is
 * foreign code, so a signed token is the triple (secret, payload, exp), and
 * verification succeeds exactly when the verifier's secret is the signer's and
 * the clock is before `exp` (the "exp" claim of section 4.1.4 of RFC 7519).
 * The clock is an integer number of seconds.
 */
module Jwt {
  import opened Wrappers
  import opened Ids

  /** Lifetime of a session token: `expiresIn: 36000` in login. */
  const SessionLifetime: nat := 36000
  /** Lifetime of a reset token: `expiresIn: "1d"` in forgetPassword. */
  const ResetLifetime: nat := 86400

  /** The `user` object a session token carries. */
  datatype Claims = Claims(id: ObjectId, email: string, role: string)

  /** The two payload shapes the application signs: `{user}` and `{_id}`. */
  datatype Payload = SessionPayload(user: Claims) | ResetPayload(id: ObjectId)

  datatype Token = Token(secret: string, payload: Payload, exp: int)

  /**
   * A string that arrives in a header or a request body: either the compact
   * serialisation of a signed token, or any other text (`Plain("")` is the
   * empty string).
   */
  datatype TokenText = Plain(text: string) | Compact(token: Token)

  /** JavaScript truthiness of an optional string: undefined and "" are falsy. */
  predicate Truthy(v: Option<TokenText>): (b: bool)
    // every signed token is truthy; only undefined and "" are not
    ensures v.Some? && v.value.Compact? ==> b
    ensures v == None || v == Some(Plain("")) <==> !b
  {
    v.Some? && v.value != Plain("")
  }

  /** The value of the template literal `${process.env.X}`. */
  function Interpolated(env: Option<string>): (s: string)
    ensures env.Some? ==> s == env.value
    ensures env.None? ==> s == "undefined"
    // the literal is empty only for a variable set to ""; an unset one still gives a usable string
    ensures s == "" <==> env == Some("")
  {
    if env.Some? then env.value else "undefined"
  }

  /** `!process.env.X` is false: the variable is present and non-empty. */
  predicate IsSet(env: Option<string>): (b: bool)
    // where the gates find the variable set, the template literal is that same non-empty secret
    ensures b ==> env.Some? && Interpolated(env) == env.value != ""
    // a variable that is present but not set in this sense interpolates to the empty string
    ensures !b && env.Some? ==> Interpolated(env) == ""
  {
    env.Some? && env.value != ""
  }

  datatype SignError = EmptySecret

  datatype VerifyError = NotProvided | Malformed | NoSecret | BadSignature | Expired

  const SignErrorMessage := "secretOrPrivateKey must have a value"

  /** The `message` of the error jsonwebtoken reports. */
  function VerifyMessage(e: VerifyError): (m: string)
    // the message tells which check failed
    ensures m == "jwt expired" <==> e == Expired
    ensures m == "invalid signature" <==> e == BadSignature
    ensures m == "jwt malformed" <==> e == Malformed
    ensures m == "secret or public key must be provided" <==> e == NoSecret
    ensures m == "jwt must be provided" <==> e == NotProvided
  {
    match e
    case NotProvided => "jwt must be provided"
    case Malformed => "jwt malformed"
    case NoSecret => "secret or public key must be provided"
    case BadSignature => "invalid signature"
    case Expired => "jwt expired"
  }

  /** jwt.sign(payload, secret, {expiresIn: lifetime}) at time `now`. */
  function Sign(secret: string, payload: Payload, now: int, lifetime: nat): Result<Token, SignError>
  {
    if secret == "" then Err(EmptySecret) else Ok(Token(secret, payload, now + lifetime))
  }

  /**
   * jwt.verify(text, secret) at time `now`, checking in jsonwebtoken's order:
   * the token's shape, the verifier's secret, the signature, the expiry.
   */
  function Verify(secret: string, text: TokenText, now: int): (r: Result<Payload, VerifyError>)
    ensures r.Ok? <==> text.Compact? && secret != "" && text.token.secret == secret && now < text.token.exp
    ensures r.Ok? ==> r.value == text.token.payload
  {
    match text
    case Plain(s) => if s == "" then Err(NotProvided) else Err(Malformed)
    case Compact(t) =>
      if secret == "" then Err(NoSecret)
      else if t.secret != secret then Err(BadSignature)
      else if now >= t.exp then Err(Expired)
      else Ok(t.payload)
  }

  /** A token signed now verifies, with its payload, until `lifetime` seconds have passed. */
  lemma SignThenVerify(secret: string, payload: Payload, issued: int, lifetime: nat, now: int)
    requires secret != ""
    requires issued <= now < issued + lifetime
    ensures Sign(secret, payload, issued, lifetime).Ok?
    ensures Verify(secret, Compact(Sign(secret, payload, issued, lifetime).value), now) == Ok(payload)
  {
  }

  /** From `exp` on, a token is rejected whatever its signature. */
  lemma ExpiredRejected(secret: string, t: Token, now: int)
    requires now >= t.exp
    ensures Verify(secret, Compact(t), now).Err?
    ensures secret != "" && t.secret == secret ==> Verify(secret, Compact(t), now) == Err(Expired)
  {
  }

  /** A token signed under one secret is never accepted by a verifier holding another. */
  lemma SecretsSeparate(signer: string, verifier: string, t: Token, now: int)
    requires t.secret == signer && signer != verifier
    ensures Verify(verifier, Compact(t), now).Err?
  {
  }
}
