# Movie store: authentication, authorization and the user store

A Dafny model of the account core of a movie-catalog backend. It covers:

- the two request gates: `authCheck`, which verifies the `x-auth-token` session token and attaches `req.user`, and `isAdmin`, which verifies it again and demands the role `"admin"`;
- the credential flows of the user controller: registration, login, forgotten password, password reset;
- the favorites handlers and the two reads (`getFavorites`, `getUserByEmail`);
- the User document with its defaults and its role enumeration.

The external pieces are idealised:

- **bcrypt** (`bcrypt.dfy`): a digest is a symbolic term `Digest(cost, salt, preimage)`. The salt the library draws is an input. `Compare` is true exactly when the whole password equals the preimage; bcrypt reads only the first 72 bytes (see "## Left out"). A missing stored password is compared against `""`, which is not a digest, so the answer is false.
- **jsonwebtoken** (`jwt.dfy`): a signed token is `Token(secret, payload, exp)`. A header or body string is a `TokenText`: the compact form of a token, or any other text (`Plain("")` is the empty string). `Verify` checks, in the library's order, the token's shape, the verifier's secret, the signature (equal secrets) and the expiry. Every non-empty text that is not a token is one `Malformed` failure (see "## Left out"). The expiry rule is the one in section 4.1.4 of RFC 7519: accepted only while `now < exp`. The clock is an integer number of seconds, passed in.
- **Environment variables** are `Option<string>` inputs. Two readings of them matter:
  - `${process.env.X}` is `"undefined"` when X is unset, and that string is a usable secret.
  - `!process.env.X` is true when X is unset or empty.
  - Signing with an empty secret fails with the library's "secretOrPrivateKey must have a value" error.
- **Other inputs**: the result of the express-validator chain (nothing, or its first message), the outcome of `sendEmail`, and the ObjectId given to a new document.

The user store (`controller.dfy`) is a class holding a map from id to User. Its invariant `Valid()` is kept by every handler. It says:

- each document is stored under its own id;
- emails are unique, and so are usernames;
- no favorites list holds a movie twice;
- every stored digest has cost 11;
- a pending reset link is a reset token naming the document it is stored in.

Each handler is a method that runs its early-return branches in the source's order. It yields exactly one `Response` (a status and a JSON body), or `NoResponse` on the code paths where the source never answers.

In resetPassword, a verified payload with no `_id` leads to the query `findOne({_id: undefined})`. Mongoose runs that as `findOne({})`, which returns an arbitrary document. The model takes that document as the input `firstDocument`: any stored id, or none when the store is empty. That account is reset (see "## Findings").

`scenario.dfy` holds clients that use only these contracts:

- `AccountLifecycle` registers an account and is refused a duplicate. It logs in, asks for a reset whose email fails, resets, and then replays the same reset token successfully.
- `ResetWithSessionToken` runs with both secret variables unset. Another account's session token resets the first account's password.
- `SelfRegisteredAdmin` registers with `role: "admin"` in the body. It logs in and passes an admin route. createUser copies `role` from the request body (user.controller.ts:34). The route's API documentation lists only `username`, `email`, `password` and `confirm_password` as body fields (user.route.ts:20-46); `role` appears only in the response (user.route.ts:58-66). The handler keeps the code's behaviour (see "## Findings").

Behaviour of the code worth knowing:

- **The reset token is never compared with the stored link.** resetPassword checks only the submitted token's signature and expiry. Any unexpired reset token for the account works: one that a newer token has overwritten, or one already used once (`OverwrittenResetTokenStillAccepted`, and the replay in `scenario.dfy`).
- **Favorites is an array.** It is changed with `push` and `splice`. Only the add handler's `includes` check keeps it free of duplicates.
- **Verify failures share one message at the gates.** Both gates answer every verify failure with the same 401 "The token is not valid!". Only resetPassword forwards the library's message, with status 500.

## Model

| member | source | states |
|---|---|---|
| Bcrypt.Hash | src/controllers/user.controller.ts:23-26 | a digest made at cost 11 with the drawn salt matches its own password under Compare |
| Bcrypt.Compare | src/controllers/user.controller.ts:72 | a missing stored password, compared as the empty string, never matches |
| Bcrypt.CompareRejectsOther | src/controllers/user.controller.ts:72-77 | the digest of one password never matches a different password |
| Jwt.Interpolated | src/controllers/user.controller.ts:88 | the template literal is empty exactly when the variable is set to ""; an unset variable still gives a non-empty secret ("undefined") |
| Jwt.Truthy | src/middleware/auth.ts:7 | undefined and "" are exactly the falsy values; every signed token is truthy |
| Jwt.IsSet | src/middleware/auth.ts:13 | where the gates find LOGINTOKEN set, the template literal is that same non-empty secret; a variable that is present but not set interpolates to "" |
| Jwt.VerifyMessage | src/controllers/user.controller.ts:171-175 | the forwarded message tells which modelled check failed: each of the five messages used ("jwt must be provided", "jwt malformed", "secret or public key must be provided", "invalid signature", "jwt expired") belongs to exactly one failure |
| Jwt.Verify | src/middleware/auth.ts:16 | verification succeeds exactly for a compact token whose secret is the (non-empty) verifier secret and whose `exp` is after now, and then yields its payload |
| Jwt.SignThenVerify | src/controllers/user.controller.ts:86-94 | a token signed at `issued` verifies to the same payload at every time before `issued + lifetime` |
| Jwt.ExpiredRejected | src/middleware/auth.ts:16-23 | from `exp` on a token is rejected whatever its signature, as expired when the secret matches |
| Jwt.SecretsSeparate | src/controllers/user.controller.ts:119-127 | a token signed under one secret is rejected by a verifier holding another, so reset and session tokens do not cross while the secrets differ |
| UserModel.RoleName | src/modals/User.ts:15-19 | a stored role is the string "user" or "admin", and "admin" exactly for the admin role |
| UserModel.ParseRole | src/modals/User.ts:18 | the enum validator accepts exactly "user" and "admin", and gives back the role with that name |
| UserModel.RoleFromBody | src/controllers/user.controller.ts:30-35 | an absent role becomes the default "user"; a given string is kept exactly when it is one of the two names |
| UserModel.RoleRoundTrip | src/modals/User.ts:15-19 | parsing a role's name gives the role back |
| UserModel.NewUser | src/modals/User.ts:3-21 | the defaults (empty reset link, no favorites) make a new document with a cost-11 digest well formed: no reset pending, no duplicate favorites |
| UserModel.ClaimsOf | src/controllers/user.controller.ts:78-84 | the role travels in the token as a string that the enum reads back as the account's role; it is "admin" exactly for an admin account |
| AuthCheck.LoginClaimsAttachIntact | src/middleware/auth.ts:17 | the claims login signs come back out of `decoded.user` unchanged: same id, same email, and a role string that parses to the account's role |
| AuthCheck.Authenticate | src/middleware/auth.ts:4-24 | next is called exactly when the header is truthy, LOGINTOKEN is set and the token verifies, with `decoded.user` attached; a falsy header gets 401 "No token found!", every other rejection 401 "The token is not valid!" |
| AuthCheck.Request.RunAuthCheck | src/middleware/auth.ts:16-18 | on every path exactly one of next and a 401 happens; `req.user` is written only on the next path, and nothing else is touched |
| AuthCheck.SessionTokenAttaches | src/middleware/auth.ts:16-18 | a session token for some claims, signed under the configured secret, attaches those claims until it expires |
| AuthCheck.UnsetSecretRejectsAll | src/middleware/auth.ts:13-15 | with LOGINTOKEN unset or empty every request is rejected |
| IsAdmin.CheckAdmin | src/middleware/isAdmin.ts:4-27 | next is called exactly for a truthy header whose token verifies to a `user` with role "admin"; other verified session roles get 401 "You are not authorized to access this route!"; a falsy header gets "No token found!"; every other rejection, including a payload with no `user`, gets "The token is not valid!" |
| IsAdmin.AdminRoute | src/routes/movie.route.ts:137-139 | at this route and the same chain at movie.route.ts:174 and comment.route.ts:14, the handler runs only after authCheck attached the claims of a user whose role is "admin"; authCheck's own rejections are what the client sees |
| IsAdmin.AdminRouteIsCheckAdmin | src/routes/movie.route.ts:137-139 | the chain (here and at movie.route.ts:174 and comment.route.ts:14) `authCheck, isAdmin` reaches its handler exactly for a present token signed under LOGINTOKEN, unexpired, whose role is "admin", and answers exactly as isAdmin alone |
| IsAdmin.ResetTokenNeverAdmin | src/middleware/isAdmin.ts:16-26 | a reset-shaped `{_id}` payload is refused as "The token is not valid!" whatever its secret and expiry |
| IsAdmin.LoginTokenAdmitted | src/middleware/isAdmin.ts:15-20 | before it expires, a login token passes an admin route exactly when the account's role is admin; a "user" account is told it is not authorised |
| Favorites.IndexOf | src/controllers/user.controller.ts:244 | the result is -1 exactly when the movie is absent, and otherwise its first position |
| Favorites.Splice | src/controllers/user.controller.ts:246 | `splice(i, 1)` keeps every element before `i` and shifts every element after it down by one |
| Favorites.SpliceAtIndexOf | src/controllers/user.controller.ts:244-246 | splicing at indexOf removes exactly the first occurrence (agrees with the reference definition WithoutFirst) |
| Favorites.WithoutFirstMultiset | src/controllers/user.controller.ts:246 | removing the first occurrence takes exactly one copy of the movie out of the multiset of favorites |
| Favorites.PushKeepsNoDuplicates | src/controllers/user.controller.ts:223-224 | pushing a movie that is not yet included keeps the list free of duplicates |
| Favorites.SpliceKeepsNoDuplicates | src/controllers/user.controller.ts:244-246 | on a list without duplicates, removal leaves no duplicate and no copy of the movie |
| Favorites.PushThenSplice | src/controllers/user.controller.ts:223-246 | adding an absent movie and then removing it gives the original list back |
| UserController.ResetStepOf | src/controllers/user.controller.ts:166-179 | depends only on the submitted link, MY_RESET_LINK and the clock. A falsy link is no attempt. It is rejected exactly when verify fails, with that error. An account is named only by an unexpired `{_id}` token signed under the reset secret. The `_id` is missing only from an unexpired `{user}` token signed under that secret |
| UserController.SessionTokenReachesResetLookup | src/controllers/user.controller.ts:176-179 | with LOGINTOKEN and MY_RESET_LINK both unset, a login token verifies in resetPassword and reaches the account lookup with no `_id` |
| UserController.IntendedResetNeedsResetToken | src/controllers/user.controller.ts:176-184 | with the intended lookup, only an unexpired reset token signed under the reset secret and naming the account reaches that account; a session token reaches none |
| UserController.Taken | src/controllers/user.controller.ts:18-21 | an email that login or forgetPassword would find is taken; a free email and username pair shares neither field with any stored document |
| UserController.OverwrittenResetTokenStillAccepted | src/controllers/user.controller.ts:128-131 | a reset token overwritten on the account by a newer one still leads to the account until its own day is over |
| UserController.IssuedResetTokenAccepted | src/controllers/user.controller.ts:119-127 | the token forgetPassword signs leads resetPassword to that account for exactly one day, and is rejected as expired afterwards |
| UserController.SessionTokenNotAResetToken | src/controllers/user.controller.ts:167-175 | a session token signed under another secret is rejected by resetPassword's verify |
| UserController.ReplaceKeepsValid | src/controllers/user.controller.ts:191-194 | rewriting a document without changing its id, email or username keeps the store invariant |
| UserController.UserStore.FindByEmail | src/controllers/user.controller.ts:113 | finds the one document with the email, and nothing exactly when no document has it |
| UserController.UserStore.CreateUser | src/controllers/user.controller.ts:8-50 | a failed validation gives 400 with its first message, and different passwords give 400 "Passwords do not match!", both before any lookup; a taken email or username gives 400 "User already exists!"; a hash error gives 500; a role outside the enum stores and sends nothing; otherwise the map gains exactly the new document with the cost-11 digest (never the plaintext) and it is returned with 200; the invariant holds |
| UserController.UserStore.Login | src/controllers/user.controller.ts:53-100 | an unknown email gives 400 "User does not exist!"; a failed compare gives 401 "Your credentials are invalid"; an empty secret gives 500; otherwise 200 with a token of `{user:{id,email,role}}` under LOGINTOKEN expiring 36000 s later; a token is issued only for a registered email whose digest matches |
| UserController.UserStore.ForgetPassword | src/controllers/user.controller.ts:102-161 | an unknown email gives 404 "User doesn't Exist" and changes nothing; an empty secret gives 500 and changes nothing; otherwise the account's link is overwritten with a `{_id}` token under MY_RESET_LINK expiring one day later, before the email; a failed email gives 500 with the link still set |
| UserController.UserStore.ResetPassword | src/controllers/user.controller.ts:163-214 | a falsy link sends and changes nothing; a verify error gives 500 with its message; an unknown `_id` gives 404; a payload with no `_id` resets the document that `findOne({})` returns, and gives 404 only for an empty store; on success the digest of the new password and the empty link are written together and 200 is sent; nothing else changes |
| UserController.UserStore.AddToFavorites | src/controllers/user.controller.ts:216-235 | no attached user gives 500; an unknown user gives 404; an included movie gives 400 "Movie already in favorites" with nothing changed; otherwise the movie is appended and 200 sent |
| UserController.UserStore.RemoveFromFavorites | src/controllers/user.controller.ts:237-252 | no attached user sends nothing; an unknown user gives 404; an absent movie gives 400 "Movie not in favorites" with nothing changed; otherwise only the first occurrence is removed, order kept, one copy fewer in the multiset, none left, and 200 sent |
| UserController.UserStore.GetFavorites | src/controllers/user.controller.ts:254-264 | 500 with no attached user, 404 for an unknown user, otherwise 200 with that user's favorites |
| Scenario.SelfRegisteredAdmin | src/controllers/user.controller.ts:30-35 | a client that registers with `role: "admin"` in the body, then logs in, passes an admin route |
| UserController.IntendedRegistrationNeverAdmin | src/controllers/user.controller.ts:30-35 | if createUser stored the default role, a self-registered account's login token would never pass an admin route, whatever the body's `role`, the secret and the clock; while valid it gets "You are not authorized to access this route!" |
| UserController.UserStore.GetUserByEmail | src/controllers/user.controller.ts:267-273 | nothing is sent with no attached user; 404 when no document has the attached email, otherwise 200 with that document |

## Findings

| source | as written | input that shows it | evidently intended | confidence | as-written member | corrected member |
|---|---|---|---|---|---|---|
| src/controllers/user.controller.ts:176-179 | a verified payload with no `_id` runs `findOne({_id: undefined})`, which returns an arbitrary document, and that account's password is reset with 200 | LOGINTOKEN and MY_RESET_LINK unset; any account's login token submitted as `resetPasswordLink` (`ResetWithSessionToken` in `scenario.dfy`) | only an account named by a reset token is reset; otherwise 404 "The User doesn't Exist !" | not executed | UserController.SessionTokenReachesResetLookup | UserController.IntendedResetNeedsResetToken |
| src/controllers/user.controller.ts:30-35 | createUser stores the `role` from the request body, so anyone can register an admin account and pass the admin routes | a createUser body with `role: "admin"`, then login and an admin route such as POST /movies, movie.route.ts:124-139 (`SelfRegisteredAdmin` in `scenario.dfy`) | a self-registered account has the default role "user" and is refused by isAdmin; the documented request body has no `role` | not executed; medium (the field may be a deliberate shortcut for creating admins) | Scenario.SelfRegisteredAdmin | UserController.IntendedRegistrationNeverAdmin |

`UserStore.ResetPassword` and `UserStore.CreateUser` model the code as written. `IntendedResetAccount` is the intended lookup, and `IntendedResetNeedsResetToken` proves what it guarantees. `IntendedRegistration` is the intended new document, and `IntendedRegistrationNeverAdmin` proves what it guarantees.

## Left out

- Jwt.Verify / UserController.UserStore.ResetPassword: every non-empty text that is not a token is a single `Malformed` failure, so resetPassword's 500 body for such a link is always "jwt malformed". jsonwebtoken says "jwt malformed" only when the text does not split into three dot-separated parts. For other text it sends other messages, and resetPassword forwards them (user.controller.ts:171-175): "invalid token" for three parts that do not decode (such as `a.b.c`), "jwt signature is required" for an empty signature, "invalid algorithm" for a header naming another algorithm, and "jwt must be a string" for a truthy body value that is not a string. Header decoding and non-string body values are not modelled. At the two gates (auth.ts:19-23, isAdmin.ts:21-26) every such failure gets the same "The token is not valid!", so only resetPassword's message differs.
- Storage failures: every MongoDB call is assumed to succeed. There is no "Server error!" catch path (user.controller.ts:45-49, 95-99). The falsy `updateOne` results at user.controller.ts:132 and :195-204 are not modelled either.
- ResetPassword: does not model a bcrypt error. On that error the source sends the error with `res.json` and then still runs the update (user.controller.ts:188-190). The model takes the salt as an input and always hashes.
- The `date` field and its `Date.now` default (User.ts:7-10): not modelled, because the clock there is I/O.
- `populate("favorites")` in getFavorites: the model returns the ids, not the movie documents.
- Bcrypt.Compare / Bcrypt.CompareRejectsOther: bcrypt reads only the first 72 UTF-8 bytes of a password, and the model compares whole passwords. The length validators count characters, not bytes (user.route.ts:92-94, 178-180), and `newPassword` in resetPassword is not validated at all (user.route.ts:329). So two passwords that share their first 72 bytes match the same digest in the source but not in the model.
- AddToFavorites / RemoveFromFavorites: Mongoose's array `includes` and `indexOf` compare the string `movieId` with `==`, while `push` casts it to an ObjectId. The model compares ids by value. The no-duplicates invariant depends on this choice: in the source, a hex id written in different letter case passes `includes` and is stored a second time. A cast error on a malformed id is not modelled.
- CreateUser: any other error from saving a document is not modelled. Only the role-enum rejection is: it happens inside the hash callback, so no response is sent.
- The text of the TypeError thrown when `req.user` is undefined is V8's message, kept as one constant.
- Email content and delivery: `sendEmail` is only its outcome, and the HTML body is not modelled.
- Console logging (user.controller.ts:85, auth.ts:6, isAdmin.ts:22): this is I/O.
- Concurrency between requests and asynchronous callbacks: each handler is one sequential run.
- Route wiring and the validation chains (src/routes): the validation result is an input. The route files are used only for the order `authCheck, isAdmin`. The favorites handlers and getUserByEmail are not mounted on any route in the user routes file; they are modelled as the controller defines them.
- The movie and comment controllers and models, the application setup, the database configuration and the API documentation are not part of this model.
