/**
 * The user controller: the credential flows (createUser, login,
 * forgetPassword, resetPassword) and the favorites handlers, run against a
 * store of User documents keyed by id. Each handler is one sequential run of
 * its early-return branches and yields exactly one Response, or NoResponse on
 * the code paths that send nothing. Storage failures are not modelled.
 */
module UserController {
  import opened Wrappers
  import opened Ids
  import opened Bcrypt
  import opened Jwt
  import opened UserModel
  import opened Http
  import opened Favorites
  import IsAdmin

  const PasswordsDoNotMatch := "Passwords do not match!"
  const UserAlreadyExists := "User already exists!"
  const UserDoesNotExist := "User does not exist!"
  const CredentialsInvalid := "Your credentials are invalid"
  const UnknownResetEmail := "User doesn't Exist"
  const UnknownResetUser := "The User doesn't Exist !"
  const ResetSucceeded := "You have successfully Reset the password !"
  const UserNotFound := "User not found"
  const MovieAdded := "Movie added to favorites"
  const MovieAlreadyThere := "Movie already in favorites"
  const MovieRemoved := "Movie removed from favorites"
  const MovieNotThere := "Movie not in favorites"
  /** The TypeError message for `req.user.id` when no user was attached. */
  const UndefinedUser := "Cannot read properties of undefined (reading 'id')"

  /** The body of a createUser request. `role` is absent unless the client sent one. */
  datatype Registration = Registration(
    username: string, email: string, password: string, confirmPassword: string, role: Option<string>)

  /** What sendEmail resolves to: `true`, or something else that is sent back as the error. */
  datatype MailOutcome = Sent | NotSent(error: string)

  /** Some stored user has this email or this username: the `$or` query of createUser. */
  predicate Taken(users: map<ObjectId, User>, email: string, username: string): (b: bool)
    // an email that login or forgetPassword would find is already taken
    ensures EmailRegistered(users, email) ==> b
    // a free pair shares neither field with any stored document
    ensures !b ==> forall id :: id in users ==> users[id].email != email && users[id].username != username
  {
    exists id :: id in users && (users[id].email == email || users[id].username == username)
  }

  predicate EmailRegistered(users: map<ObjectId, User>, email: string) {
    exists id :: id in users && users[id].email == email
  }

  /**
   * How resetPassword gets from the submitted link to a lookup: no attempt, a
   * verify error, a verified payload whose `_id` names an account, or a
   * verified payload with no `_id` at all.
   */
  datatype ResetStep = NoAttempt | Rejected(error: VerifyError) | NamedAccount(id: ObjectId) | NoIdField

  /**
   * The part of resetPassword that reads the submitted link. It depends on the
   * link, the MY_RESET_LINK variable and the clock only: the link stored on the
   * account is never consulted.
   */
  function ResetStepOf(link: Option<TokenText>, resetSecret: Option<string>, now: int): (r: ResetStep)
    ensures r.NoAttempt? <==> !Truthy(link)
    ensures r.Rejected? <==> Truthy(link) && Verify(Interpolated(resetSecret), link.value, now).Err?
    ensures r.Rejected? ==> Verify(Interpolated(resetSecret), link.value, now) == Err(r.error)
    // an account is named only by an unexpired `{_id}` token signed under the reset secret
    ensures r.NamedAccount? ==>
      && link.Some? && link.value.Compact?
      && link.value.token == Token(Interpolated(resetSecret), ResetPayload(r.id), link.value.token.exp)
      && now < link.value.token.exp && Interpolated(resetSecret) != ""
    // the `_id` is missing only from an unexpired `{user}` token signed under the reset secret
    ensures r.NoIdField? ==>
      && link.Some? && link.value.Compact? && link.value.token.payload.SessionPayload?
      && link.value.token.secret == Interpolated(resetSecret) != "" && now < link.value.token.exp
  {
    if !Truthy(link) then NoAttempt
    else
      match Verify(Interpolated(resetSecret), link.value, now)
      case Err(e) => Rejected(e)
      case Ok(ResetPayload(id)) => NamedAccount(id)
      case Ok(SessionPayload(_)) => NoIdField
  }

  /**
   * As written, a session token reaches the account lookup of resetPassword
   * when neither secret variable is set: login and resetPassword both use the
   * template literal "undefined" as their secret. Its payload has no `_id`.
   */
  lemma SessionTokenReachesResetLookup(c: Claims, issued: int, now: int)
    requires issued <= now < issued + SessionLifetime
    ensures Sign(Interpolated(None), SessionPayload(c), issued, SessionLifetime).Ok?
    ensures ResetStepOf(Some(Compact(Sign(Interpolated(None), SessionPayload(c), issued, SessionLifetime).value)), None, now)
         == NoIdField
  {
  }

  /** The account a reset should reach: the one the token's `_id` names, and none when there is no `_id`. */
  function IntendedResetAccount(step: ResetStep): Option<ObjectId>
  {
    if step.NamedAccount? then Some(step.id) else None
  }

  /**
   * With the intended lookup, only an unexpired reset token naming an account,
   * signed under the reset secret, reaches that account; a session token never
   * reaches any.
   */
  lemma IntendedResetNeedsResetToken(link: Option<TokenText>, resetSecret: Option<string>, now: int, id: ObjectId)
    ensures IntendedResetAccount(ResetStepOf(link, resetSecret, now)) == Some(id) ==>
      && link.Some? && link.value.Compact? && link.value.token.payload == ResetPayload(id)
      && link.value.token.secret == Interpolated(resetSecret) && now < link.value.token.exp
    ensures link.Some? && link.value.Compact? && link.value.token.payload.SessionPayload? ==>
      IntendedResetAccount(ResetStepOf(link, resetSecret, now)).None?
  {
    var step := ResetStepOf(link, resetSecret, now);
    if step.NamedAccount? {
      assert link.value.token.payload == ResetPayload(step.id);
    }
  }

  /**
   * The document createUser evidently means to store: the schema default role,
   * whatever `role` the request body carries.
   */
  function IntendedRegistration(body: Registration, freshId: ObjectId, salt: nat): User
  {
    NewUser(freshId, body.username, body.email, Hash(body.password, Cost, salt), UserRole)
  }

  /**
   * With the intended registration, a self-registered account's login token
   * never passes an admin route, whatever the body's `role`, the secret and the
   * clock; while it is valid it is told it is not authorised.
   */
  lemma IntendedRegistrationNeverAdmin(body: Registration, freshId: ObjectId, salt: nat,
                                       loginToken: Option<string>, issued: int, now: int)
    ensures var t := Token(Interpolated(loginToken), SessionPayload(ClaimsOf(IntendedRegistration(body, freshId, salt))),
                           issued + SessionLifetime);
      && IsAdmin.AdminRoute(Some(Compact(t)), loginToken, now).Refuse?
      && (IsSet(loginToken) && now < t.exp ==>
          IsAdmin.AdminRoute(Some(Compact(t)), loginToken, now) == IsAdmin.Refuse(Failure(401, NotAuthorized)))
  {
  }

  /**
   * A reset token stays usable for its whole day even after a newer one has
   * overwritten it on the account: two tokens issued at `first` and `second`
   * both lead to the account at any time before the first one expires.
   */
  lemma OverwrittenResetTokenStillAccepted(resetSecret: Option<string>, id: ObjectId, first: int, second: int, now: int)
    requires Interpolated(resetSecret) != ""
    requires first <= second <= now < first + ResetLifetime
    ensures var s := Interpolated(resetSecret);
      && ResetStepOf(Some(Compact(Token(s, ResetPayload(id), first + ResetLifetime))), resetSecret, now) == NamedAccount(id)
      && ResetStepOf(Some(Compact(Token(s, ResetPayload(id), second + ResetLifetime))), resetSecret, now) == NamedAccount(id)
  {
  }

  /** The token forgetPassword issues leads resetPassword to that account for one day. */
  lemma IssuedResetTokenAccepted(resetSecret: Option<string>, id: ObjectId, issued: int, now: int)
    requires Interpolated(resetSecret) != ""
    requires issued <= now
    ensures var s := Interpolated(resetSecret);
      var t := Sign(s, ResetPayload(id), issued, ResetLifetime);
      && t.Ok?
      && (now < issued + ResetLifetime ==> ResetStepOf(Some(Compact(t.value)), resetSecret, now) == NamedAccount(id))
      && (now >= issued + ResetLifetime ==> ResetStepOf(Some(Compact(t.value)), resetSecret, now) == Rejected(Expired))
  {
  }

  /** A session token is never accepted as a reset token while the two secrets differ. */
  lemma SessionTokenNotAResetToken(resetSecret: Option<string>, t: Token, now: int)
    requires t.payload.SessionPayload?
    requires t.secret != Interpolated(resetSecret)
    ensures ResetStepOf(Some(Compact(t)), resetSecret, now).Rejected?
  {
  }

  /** Ids are the documents' own, every document is well formed, emails and usernames are unique. */
  ghost predicate ValidStore(users: map<ObjectId, User>) {
    && (forall id :: id in users ==> users[id].id == id && WellFormed(users[id]))
    && (forall a, b :: a in users && b in users && a != b ==>
          users[a].email != users[b].email && users[a].username != users[b].username)
  }

  /** Rewriting one document without touching its id, email or username keeps the store valid. */
  lemma ReplaceKeepsValid(users: map<ObjectId, User>, id: ObjectId, u: User)
    requires ValidStore(users) && id in users
    requires u.id == id && u.email == users[id].email && u.username == users[id].username
    requires WellFormed(u)
    ensures ValidStore(users[id := u])
  {
    var users' := users[id := u];
    forall a, b | a in users' && b in users' && a != b
      ensures users'[a].email != users'[b].email && users'[a].username != users'[b].username
    {
      assert users'[a].email == users[a].email && users'[a].username == users[a].username;
      assert users'[b].email == users[b].email && users'[b].username == users[b].username;
    }
  }

  /** The store after the reset update `$set: {resetPasswordLink: "", password}` on one account. */
  function PasswordReset(users: map<ObjectId, User>, id: ObjectId, newPassword: string, salt: nat): map<ObjectId, User>
    requires id in users
  {
    users[id := users[id].(password := Some(Hash(newPassword, Cost, salt)), resetPasswordLink := NoResetLink)]
  }

  class UserStore {
    var users: map<ObjectId, User>

    /** The store invariant, kept by every handler. */
    ghost predicate Valid()
      reads this
    {
      ValidStore(users)
    }

    constructor ()
      ensures Valid() && users == map[]
    {
      users := map[];
    }

    /** `User.findOne({email})`: the one document with that email, if any. */
    method FindByEmail(email: string) returns (found: Option<ObjectId>)
      requires Valid()
      ensures found.None? <==> !EmailRegistered(users, email)
      ensures found.Some? ==> found.value in users && users[found.value].email == email
      ensures found.Some? ==> forall id :: id in users && users[id].email == email ==> id == found.value
    {
      if EmailRegistered(users, email) {
        var id :| id in users && users[id].email == email;
        found := Some(id);
      } else {
        found := None;
      }
    }

    /** createUser: validate, compare the two passwords, refuse a taken email or username, hash, save. */
    method CreateUser(body: Registration, validation: Validation, hashing: HashOutcome, freshId: ObjectId)
      returns (response: Response)
      requires Valid()
      requires freshId !in users  // ObjectIds are never reused
      modifies this
      ensures Valid()
      ensures validation.Failed? ==> response == Failure(400, validation.firstMessage) && users == old(users)
      ensures validation.Passed? && body.password != body.confirmPassword
        ==> response == Failure(400, PasswordsDoNotMatch) && users == old(users)
      ensures validation.Passed? && body.password == body.confirmPassword && Taken(old(users), body.email, body.username)
        ==> response == Failure(400, UserAlreadyExists) && users == old(users)
      ensures validation.Passed? && body.password == body.confirmPassword && !Taken(old(users), body.email, body.username)
        ==> match hashing
            case HashFailed(msg) => response == Failure(500, msg) && users == old(users)
            case Hashed(salt) =>
              var role := RoleFromBody(body.role);
              if role.None? then
                // the enum validator makes `save` reject inside the callback: nothing is stored or sent
                response == NoResponse && users == old(users)
              else
                && users == old(users)[freshId := NewUser(freshId, body.username, body.email, Hash(body.password, Cost, salt), role.value)]
                && response == Respond(200, UserBody(users[freshId]))
    {
      if validation.Failed? {
        return Failure(400, validation.firstMessage);
      }
      if body.password != body.confirmPassword {
        return Failure(400, PasswordsDoNotMatch);
      }
      if Taken(users, body.email, body.username) {
        return Failure(400, UserAlreadyExists);
      }
      match hashing
      case HashFailed(msg) =>
        response := Failure(500, msg);
      case Hashed(salt) =>
        var role := RoleFromBody(body.role);
        if role.None? {
          response := NoResponse;
        } else {
          var u := NewUser(freshId, body.username, body.email, Hash(body.password, Cost, salt), role.value);
          users := users[freshId := u];
          response := Respond(200, UserBody(u));
        }
    }

    /** login: find the account by email, compare the password, sign a session token. */
    method Login(email: string, password: string, validation: Validation, loginToken: Option<string>, now: int)
      returns (response: Response)
      requires Valid()
      ensures validation.Failed? ==> response == Failure(400, validation.firstMessage)
      ensures validation.Passed? && !EmailRegistered(users, email) ==> response == Failure(400, UserDoesNotExist)
      ensures validation.Passed? ==> forall id :: id in users && users[id].email == email ==>
        if !Compare(password, users[id].password) then response == Failure(401, CredentialsInvalid)
        else if Interpolated(loginToken) == "" then response == Failure(500, SignErrorMessage)
        else response == Respond(200, TokenBody(Compact(
          Token(Interpolated(loginToken), SessionPayload(ClaimsOf(users[id])), now + SessionLifetime))))
      // a token is issued only for a registered email whose stored digest matches the password
      ensures response.Respond? && response.body.TokenBody? ==>
        response.status == 200 && exists id :: id in users && users[id].email == email && Compare(password, users[id].password)
    {
      if validation.Failed? {
        return Failure(400, validation.firstMessage);
      }
      var found := FindByEmail(email);
      if found.None? {
        return Failure(400, UserDoesNotExist);
      }
      var u := users[found.value];
      if !Compare(password, u.password) {
        return Failure(401, CredentialsInvalid);
      }
      match Sign(Interpolated(loginToken), SessionPayload(ClaimsOf(u)), now, SessionLifetime)
      case Err(_) =>
        response := Failure(500, SignErrorMessage);
      case Ok(t) =>
        response := Respond(200, TokenBody(Compact(t)));
    }

    /** forgetPassword: sign a reset token, store it on the account, then send the email. */
    method ForgetPassword(email: string, validation: Validation, resetSecret: Option<string>, now: int, mail: MailOutcome)
      returns (response: Response)
      requires Valid()
      modifies this
      ensures Valid()
      ensures validation.Failed? ==> response == Failure(400, validation.firstMessage) && users == old(users)
      ensures validation.Passed? && !EmailRegistered(old(users), email)
        ==> response == Failure(404, UnknownResetEmail) && users == old(users)
      ensures validation.Passed? && Interpolated(resetSecret) == "" ==> response.Respond? && response.status != 200 && users == old(users)
      ensures validation.Passed? ==> forall id :: id in old(users) && old(users)[id].email == email ==>
        if Interpolated(resetSecret) == "" then response == Failure(500, SignErrorMessage) && users == old(users)
        else
          // the link is overwritten before the email goes out, and stays set if sending fails
          && users == old(users)[id := old(users)[id].(resetPasswordLink :=
               Compact(Token(Interpolated(resetSecret), ResetPayload(id), now + ResetLifetime)))]
          && response == (if mail.Sent? then Respond(200, MessageBody("email has been sent to " + email))
                          else Failure(500, mail.error))
    {
      if validation.Failed? {
        return Failure(400, validation.firstMessage);
      }
      var found := FindByEmail(email);
      if found.None? {
        return Failure(404, UnknownResetEmail);
      }
      var id := found.value;
      match Sign(Interpolated(resetSecret), ResetPayload(id), now, ResetLifetime)
      case Err(_) =>
        response := Failure(500, SignErrorMessage);
      case Ok(t) =>
        ReplaceKeepsValid(users, id, users[id].(resetPasswordLink := Compact(t)));
        users := users[id := users[id].(resetPasswordLink := Compact(t))];
        if mail.Sent? {
          response := Respond(200, MessageBody("email has been sent to " + users[id].email));
        } else {
          response := Failure(500, mail.error);
        }
    }

    /**
     * resetPassword: verify the submitted link, look the account up by the
     * payload's `_id`, store the new digest and clear the link. For a payload
     * with no `_id` the query is `findOne({_id: undefined})`, which Mongoose
     * runs as `findOne({})`: `firstDocument` is the document that query
     * returns, none only when the collection is empty.
     */
    method ResetPassword(link: Option<TokenText>, newPassword: string, resetSecret: Option<string>, now: int, salt: nat,
                         firstDocument: Option<ObjectId>)
      returns (response: Response)
      requires Valid()
      requires firstDocument.Some? ==> firstDocument.value in users
      requires firstDocument.None? ==> users == map[]
      modifies this
      ensures Valid()
      ensures match ResetStepOf(link, resetSecret, now)
        case NoAttempt => response == NoResponse && users == old(users)
        case Rejected(e) => response == Failure(500, VerifyMessage(e)) && users == old(users)
        case NamedAccount(id) =>
          if id !in old(users) then response == Failure(404, UnknownResetUser) && users == old(users)
          else users == PasswordReset(old(users), id, newPassword, salt) && response == Respond(200, SuccessBody(ResetSucceeded))
        case NoIdField =>
          if firstDocument.None? then response == Failure(404, UnknownResetUser) && users == old(users)
          else
            && users == PasswordReset(old(users), firstDocument.value, newPassword, salt)
            && response == Respond(200, SuccessBody(ResetSucceeded))
      ensures response.Respond? && response.status == 200 ==>
        exists id :: id in users && users[id].resetPasswordLink == NoResetLink && Compare(newPassword, users[id].password)
    {
      var step := ResetStepOf(link, resetSecret, now);
      var target: Option<ObjectId>;
      match step {
        case NoAttempt =>
          return NoResponse;
        case Rejected(e) =>
          return Failure(500, VerifyMessage(e));
        case NamedAccount(id) =>
          target := if id in users then Some(id) else None;
        case NoIdField =>
          target := firstDocument;
      }
      if target.None? {
        return Failure(404, UnknownResetUser);
      }
      var id := target.value;
      var u := users[id].(password := Some(Hash(newPassword, Cost, salt)), resetPasswordLink := NoResetLink);
      ReplaceKeepsValid(users, id, u);
      users := users[id := u];
      response := Respond(200, SuccessBody(ResetSucceeded));
      assert users[id].resetPasswordLink == NoResetLink && Compare(newPassword, users[id].password);
    }

    /** movieAddToFavorites: push the movie unless it is already there. */
    method AddToFavorites(user: Option<Claims>, movieId: ObjectId) returns (response: Response)
      requires Valid()
      modifies this
      ensures Valid()
      ensures user.None? ==> response == Failure(500, UndefinedUser) && users == old(users)
      ensures user.Some? && user.value.id !in old(users) ==> response == Failure(404, UserNotFound) && users == old(users)
      ensures user.Some? && user.value.id in old(users) ==>
        var id := user.value.id;
        var favs := old(users)[id].favorites;
        if movieId in favs then response == Failure(400, MovieAlreadyThere) && users == old(users)
        else
          && users == old(users)[id := old(users)[id].(favorites := favs + [movieId])]
          && response == Respond(200, MessageBody(MovieAdded))
    {
      if user.None? {
        return Failure(500, UndefinedUser);
      }
      var id := user.value.id;
      if id !in users {
        return Failure(404, UserNotFound);
      }
      var u := users[id];
      if movieId !in u.favorites {
        PushKeepsNoDuplicates(u.favorites, movieId);
        ReplaceKeepsValid(users, id, u.(favorites := u.favorites + [movieId]));
        users := users[id := u.(favorites := u.favorites + [movieId])];
        response := Respond(200, MessageBody(MovieAdded));
      } else {
        response := Failure(400, MovieAlreadyThere);
      }
    }

    /** movieRemoveFromFavorites: splice out the first occurrence, if there is one. */
    method RemoveFromFavorites(user: Option<Claims>, movieId: ObjectId) returns (response: Response)
      requires Valid()
      modifies this
      ensures Valid()
      // reading `req.user.id` throws outside any try block: the request is never answered
      ensures user.None? ==> response == NoResponse && users == old(users)
      ensures user.Some? && user.value.id !in old(users) ==> response == Failure(404, UserNotFound) && users == old(users)
      ensures user.Some? && user.value.id in old(users) ==>
        var id := user.value.id;
        var favs := old(users)[id].favorites;
        if movieId !in favs then response == Failure(400, MovieNotThere) && users == old(users)
        else
          && users == old(users)[id := old(users)[id].(favorites := WithoutFirst(favs, movieId))]
          && movieId !in users[id].favorites
          && multiset(users[id].favorites) == multiset(favs) - multiset{movieId}
          && response == Respond(200, MessageBody(MovieRemoved))
    {
      if user.None? {
        return NoResponse;
      }
      var id := user.value.id;
      if id !in users {
        return Failure(404, UserNotFound);
      }
      var u := users[id];
      var index := IndexOf(u.favorites, movieId);
      if index > -1 {
        SpliceAtIndexOf(u.favorites, movieId);
        WithoutFirstMultiset(u.favorites, movieId);
        SpliceKeepsNoDuplicates(u.favorites, movieId);
        ReplaceKeepsValid(users, id, u.(favorites := Splice(u.favorites, index)));
        users := users[id := u.(favorites := Splice(u.favorites, index))];
        response := Respond(200, MessageBody(MovieRemoved));
      } else {
        response := Failure(400, MovieNotThere);
      }
    }

    /** getFavorites: the favorites of the attached user. */
    method GetFavorites(user: Option<Claims>) returns (response: Response)
      requires Valid()
      ensures user.None? ==> response == Failure(500, UndefinedUser)
      ensures user.Some? && user.value.id !in users ==> response == Failure(404, UserNotFound)
      ensures user.Some? && user.value.id in users ==> response == Respond(200, FavoritesBody(users[user.value.id].favorites))
    {
      if user.None? {
        return Failure(500, UndefinedUser);
      }
      if user.value.id !in users {
        return Failure(404, UserNotFound);
      }
      response := Respond(200, FavoritesBody(users[user.value.id].favorites));
    }

    /** getUserByEmail: the document whose email is the attached user's. */
    method GetUserByEmail(user: Option<Claims>) returns (response: Response)
      requires Valid()
      ensures user.None? ==> response == NoResponse
      ensures user.Some? && !EmailRegistered(users, user.value.email) ==> response == Failure(404, UserNotFound)
      ensures user.Some? ==> forall id :: id in users && users[id].email == user.value.email ==>
        response == Respond(200, UserBody(users[id]))
    {
      if user.None? {
        return NoResponse;
      }
      var found := FindByEmail(user.value.email);
      if found.None? {
        return Failure(404, UserNotFound);
      }
      response := Respond(200, UserBody(users[found.value]));
    }
  }
}
