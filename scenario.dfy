/** Clients of the user store that rely on the handlers' contracts alone. */
module Scenario {
  import opened Wrappers
  import opened Bcrypt
  import opened Jwt
  import opened UserModel
  import opened Http
  import opened UserController
  import IsAdmin

  /**
   * Register, a duplicate registration, a failed and a successful login, a
   * forgotten password whose email fails, a reset, and a replay of the same
   * reset token after the link was cleared.
   */
  method AccountLifecycle() {
    var store := new UserStore();

    var created := store.CreateUser(Registration("ann", "a@x.com", "secret1", "secret1", None), Passed, Hashed(7), 1);
    assert !Taken(map[], "a@x.com", "ann");
    assert created.Respond? && created.status == 200;
    assert store.users[1].password == Some(Digest(Cost, 7, "secret1")) && store.users[1].role == UserRole;

    var duplicate := store.CreateUser(Registration("ann", "b@x.com", "secret2", "secret2", None), Passed, Hashed(8), 2);
    assert store.users[1].username == "ann";
    assert duplicate == Failure(400, UserAlreadyExists) && 2 !in store.users;

    var wrong := store.Login("a@x.com", "secret9", Passed, Some("k"), 100);
    assert store.users[1].email == "a@x.com";
    assert wrong == Failure(401, CredentialsInvalid);

    var session := store.Login("a@x.com", "secret1", Passed, Some("k"), 100);
    assert session == Respond(200, TokenBody(Compact(Token("k", SessionPayload(Claims(1, "a@x.com", "user")), 100 + SessionLifetime))));

    var forgot := store.ForgetPassword("a@x.com", Passed, Some("r"), 200, NotSent("smtp down"));
    var link := Compact(Token("r", ResetPayload(1), 200 + ResetLifetime));
    assert forgot == Failure(500, "smtp down") && store.users[1].resetPasswordLink == link;

    var reset := store.ResetPassword(Some(link), "secret2", Some("r"), 300, 9, Some(1));
    assert reset == Respond(200, SuccessBody(ResetSucceeded));
    assert store.users[1].resetPasswordLink == NoResetLink && Compare("secret2", store.users[1].password);

    // the cleared link does not stop the same token from resetting again
    var replay := store.ResetPassword(Some(link), "secret3", Some("r"), 400, 10, Some(1));
    assert replay == Respond(200, SuccessBody(ResetSucceeded));
    assert Compare("secret3", store.users[1].password);
  }

  /**
   * With both secret variables unset, one account's session token resets
   * another account's password.
   */
  method ResetWithSessionToken() {
    var store := new UserStore();
    var ann := store.CreateUser(Registration("ann", "a@x.com", "secret1", "secret1", None), Passed, Hashed(7), 1);
    assert !Taken(map[], "a@x.com", "ann");

    // with LOGINTOKEN and MY_RESET_LINK unset both sides sign and verify with "undefined"
    var bob := store.CreateUser(Registration("bob", "b@x.com", "hunter2", "hunter2", None), Passed, Hashed(11), 3);
    assert store.users[1].email == "a@x.com" && store.users[1].username == "ann";
    assert store.users[3].email == "b@x.com";
    var bobSession := store.Login("b@x.com", "hunter2", Passed, None, 500);
    var bobToken := Compact(Token("undefined", SessionPayload(Claims(3, "b@x.com", "user")), 500 + SessionLifetime));
    assert bobSession == Respond(200, TokenBody(bobToken));
    // the `{user}` payload has no `_id`; `findOne({})` returns ann's document, which is reset
    var hijack := store.ResetPassword(Some(bobToken), "owned!", None, 600, 12, Some(1));
    assert hijack == Respond(200, SuccessBody(ResetSucceeded));
    assert Compare("owned!", store.users[1].password);
  }

  /** createUser copies `role` from the request body, so anyone can register an admin account. */
  method SelfRegisteredAdmin() returns (outcome: IsAdmin.AdminOutcome)
    ensures outcome.Proceed?
  {
    var store := new UserStore();
    var created := store.CreateUser(Registration("mallory", "m@x.com", "secret1", "secret1", Some("admin")), Passed, Hashed(5), 1);
    assert !Taken(map[], "m@x.com", "mallory");
    assert store.users[1].role == AdminRole && store.users[1].email == "m@x.com";
    var session := store.Login("m@x.com", "secret1", Passed, Some("k"), 100);
    var token := Compact(Token("k", SessionPayload(Claims(1, "m@x.com", "admin")), 100 + SessionLifetime));
    assert session == Respond(200, TokenBody(token));
    outcome := IsAdmin.AdminRoute(Some(token), Some("k"), 200);
  }
}
