# Credential and session handlers of the Yoga-Session user API, in Dafny

This project models the user controller of the Yoga-Session server: the
`register`, `login` and `Logout` request handlers, the `createToken` helper
and the production-mode cookie policy. It proves what these handlers
guarantee. The three handlers manage a collection of user accounts and a
`token` session cookie.

- **Register** takes `{name, email, password}` and checks it in a fixed order.
  A field that is missing or trims to `""` gives 400. An email that is already
  stored gives 409. A password shorter than 5 gives 400. Otherwise register
  hashes the password, saves the new account, signs a token for the new
  `_id`, sets the cookie and answers 201 with `{_id, name, email}`.
- **Login** takes `{email, password}`. A blank field gives 400. An unknown
  email and a wrong password give the same 400 "Invalid email or password".
  Otherwise login signs a token, sets the cookie and answers 201.
- **Logout** clears the cookie and answers 200.
- In both register and login, a throw from any awaited collaborator gives
  500, and the reply carries the error's message unchanged.

How the model is built:

- Each handler is a function of its inputs. `RegisterOutcome` returns the
  reply and the new collection. `LoginResponse` and `Logout` return the reply
  only. A reply is a status, a success flag, a message, an optional user
  view and a cookie action (set, clear or none).
- `Register` and `Login` are step-by-step methods over an `AccountStore`
  object, with the source's early returns. Each is proved to produce exactly
  what its function says.
- `Login` has no `modifies` clause, so the verifier checks that it cannot
  change the store.
- The collection is a sequence of documents, and `findOne` returns the first
  one whose email matches exactly. Taking the sequence order as the order
  `findOne` scans is a modelling choice: MongoDB returns the first document in
  natural order, which is not guaranteed to be insertion order. This matters
  only when two documents share an email. The storage itself does not keep
  emails unique. `UniqueEmails` is an invariant that register is proved to preserve.

A few JavaScript details are modelled exactly:

- `trim()` removes ECMAScript's WhiteSpace and LineTerminator code points.
- `!v?.trim()` holds for an absent field, a `null` field and a blank string.
- `password.length` counts UTF-16 code units, so a supplementary-plane
  character counts as 2.
- The length check reads the untrimmed password.

The collaborators are abstract:

- bcrypt's `hash` and `compare` and jsonwebtoken's `sign` are function-valued
  fields of a `Crypto` record.
- Where a lemma needs bcrypt to behave, it assumes `Sound`: a password
  verifies against its own hash, and a hash never equals its plaintext.
- An `Effects` record stands for the environment of one request: the random
  salt, the `_id` the store assigns, and at most one awaited call that throws,
  with its message.
- `NODE_ENV` and `JWT_SECRET` are fields of a `Config` passed in.

One consequence of the source's order: token signing runs after
`newUser.save()`. So a register whose signing throws answers 500 and sets no
cookie, but the new account is already stored
(`RegisterSigningFailureKeepsAccount`). Every other failing register leaves
the collection as it was. The cookie's SameSite value differs between issue
(`Strict` in production) and clear (`None` in production). The model keeps
this difference as the code has it.

## Model

| member | source | states |
|---|---|---|
| JsString.Trim | server/controllers/userController.js:29 | `s.trim()` is no longer than `s`, and a non-empty result neither starts nor ends with a JavaScript whitespace or line-terminator character |
| JsString.TrimCutsRuns | server/controllers/userController.js:29 | `s.trim()` is a contiguous piece of `s`, and everything cut off before and after it is whitespace or line terminators |
| JsString.TrimEmptyIff | server/controllers/userController.js:29 | `s.trim()` is empty exactly when every character of `s` is JavaScript whitespace or a line terminator |
| JsString.TrimStart | server/controllers/userController.js:29 | the leading-whitespace half of `trim`: the result is a suffix of the input, only whitespace was removed, and the result does not start with whitespace |
| JsString.TrimEnd | server/controllers/userController.js:29 | the trailing-whitespace half of `trim`: the result is a prefix of the input, only whitespace was removed, and the result does not end with whitespace |
| JsString.IsBlank | server/controllers/userController.js:29 | defined as `!v?.trim()`: the field is absent or `null`, or trims to `""` |
| JsString.BlankIffWhitespaceOnly | server/controllers/userController.js:29 | a present field fails `!v?.trim()` exactly when it is empty or whitespace-only |
| JsString.Utf16Length | server/controllers/userController.js:41 | `password.length` counts code units: at least the number of characters, at most twice that, and equal to it exactly when no character is outside the Basic Multilingual Plane |
| Accounts.Find | server/controllers/userController.js:35 | `findOne({ email })` finds nothing exactly when no document has that exact email; otherwise it returns a stored document with that email |
| Accounts.IndexOf | server/controllers/userController.js:35 | the document found is the first one in the collection with that email |
| Accounts.FindAppend | server/controllers/userController.js:54 | saving a document keeps every lookup that already succeeded, and makes a failed lookup of its own email succeed |
| Accounts.UniqueEmailsAppend | server/controllers/userController.js:35-54 | saving a document whose email the lookup did not find keeps emails unique |
| Accounts.AccountStore.constructor | server/controllers/userController.js:1 | the store standing for `userModel` starts out holding exactly the given documents |
| Accounts.AccountStore.FindOne | server/controllers/userController.js:35 | the awaited lookup throws with the environment's message, or returns the `Find` result; it does not change the store |
| Accounts.AccountStore.Save | server/controllers/userController.js:54 | `save()` appends exactly the new document and returns it, or throws and leaves the collection as it was |
| Cookies.Issue | server/controllers/userController.js:56-61 | `res.cookie` sets the `token` cookie to the given value with a max-age of 604800000 ms, HttpOnly, Secure exactly in production, and SameSite Strict exactly in production |
| Cookies.ClearToken | server/controllers/userController.js:115-119 | `res.clearCookie` clears the `token` cookie, HttpOnly, Secure exactly in production, and SameSite None exactly in production |
| Cookies.TokenCookiePolicy | server/controllers/userController.js:56-61 | the `token` cookie is HttpOnly always and Secure exactly in production. On issue, SameSite is Strict in production and Lax otherwise, and max-age is 604800000 ms. On clear, SameSite is None in production and Lax otherwise. Issue and clear attributes agree exactly outside production |
| UserController.IsProduction | server/controllers/userController.js:17 | defined as `NODE_ENV` being present and equal to "production" |
| UserControllerFacts.ProductionIsExactMatch | server/controllers/userController.js:17 | only the exact string "production" selects production mode; an unset `NODE_ENV`, "Production" or " production" do not |
| UserController.CreateToken | server/controllers/userController.js:19-23 | `createToken(id)` throws exactly when signing throws, with that message; otherwise it is the signature of the `_id` under the server's secret |
| UserController.RegisterMissing | server/controllers/userController.js:29 | defined as `IsBlank` of name, email or password, in that order |
| UserController.LoginMissing | server/controllers/userController.js:80 | defined as `IsBlank` of email or password; `name` plays no part |
| UserController.ShortPassword | server/controllers/userController.js:41 | a short password has fewer than 5 characters; every password of at most 2 characters is short; for passwords inside the Basic Multilingual Plane, short means exactly fewer than 5 characters |
| UserController.NewAccount | server/controllers/userController.js:47-53 | the new document's password field is the password's hash under the drawn salt; with a sound bcrypt it differs from the plaintext and the plaintext verifies against it |
| UserController.RegisterOutcome | server/controllers/userController.js:26-74 | register answers only 201, 400, 409 or 500. success, a user view and a set cookie each hold exactly when the status is 201, and no cookie is cleared. The collection changes only by appending the hash-bearing new account, only after every validation passed and the email was not found, and only with a 201 or a signing failure. If the lookup throws, the reply is 500 with the thrown message and nothing changes. 409 happens exactly when the fields are present, the lookup succeeds and finds the email, and then nothing changes. Once every check passes, the outcome is that of `CreateAccount` |
| UserController.CreateAccount | server/controllers/userController.js:47-70 | after validation, register answers 201 exactly when no salt, hash, save or sign call throws. The document is appended exactly when salt, hash and save succeed. A 500 reply carries the thrown message |
| UserController.LoginResponse | server/controllers/userController.js:77-111 | login answers only 201, 400 or 500, and success holds exactly on 201. A 201 happens only for a stored email whose stored hash verifies the given password, and returns that account's view and a token cookie signed for its `_id`. Every other reply has no user and no cookie. If the lookup throws, the reply is 500 with the thrown message. Once the fields are present and the lookup succeeds, the reply is that of `Authenticate` on what the lookup found |
| UserController.Authenticate | server/controllers/userController.js:85-107 | after the lookup, 400 happens exactly when no account was found or the password does not verify, and it is always the same "Invalid email or password" reply. 201 happens exactly when an account was found, `compare` does not throw and verifies the password, and signing does not throw; so a throwing `compare` or `sign` gives 500, and a 500 reply carries the thrown message |
| UserController.Logout | server/controllers/userController.js:113-126 | logout depends on the deployment mode alone: it always answers 200 with success, "Logged out successfully" and no user, and clears the `token` cookie with HttpOnly set, Secure exactly in production, and SameSite None in production and Lax otherwise. Two calls therefore give identical replies |
| UserController.Register | server/controllers/userController.js:26-74 | the step-by-step handler over the store yields exactly the reply and the new collection of `RegisterOutcome` |
| UserController.Login | server/controllers/userController.js:77-111 | the step-by-step handler yields exactly `LoginResponse` on the current collection and modifies nothing |
| UserControllerFacts.RegisterRejectsMissing | server/controllers/userController.js:29-34 | register answers 400 "Please Provide All Credentials" with the collection unchanged exactly when name, email or password is absent or trims to `""` |
| UserControllerFacts.RegisterRejectsWhitespaceOnly | server/controllers/userController.js:29-34 | a whitespace-only name, email or password is rejected with 400 and no change |
| UserControllerFacts.RegisterConflict | server/controllers/userController.js:35-46 | when the lookup succeeds and a stored document has the exact email, register answers 409 and changes nothing, whatever the password. So a taken email with a short password gives 409, not 400 |
| UserControllerFacts.RegisterPasswordBoundary | server/controllers/userController.js:41-46 | past the blank and duplicate checks, register answers the 400 short-password reply exactly when the untrimmed password is under 5 UTF-16 code units |
| UserControllerFacts.PasswordLengthBoundaryExamples | server/controllers/userController.js:41 | a 4-character password is too short, and a 5-character one is not |
| UserControllerFacts.PaddedTrimExample | server/controllers/userController.js:29 | `"  ab  "` trims to `"ab"`, so it passes the blank check |
| UserControllerFacts.PaddedPasswordExample | server/controllers/userController.js:41 | `"  ab  "` passes the length check although it trims to 2 characters |
| UserControllerFacts.RegisterSucceeds | server/controllers/userController.js:47-70 | valid, unused credentials with no failing call always give 201 |
| UserControllerFacts.RegisterCreated | server/controllers/userController.js:47-70 | every 201 from register comes from valid credentials and an unused email. It appends exactly one document: the untrimmed name and email and the hash of the password under the drawn salt. It replies with `{_id, name, email}` and no password, and sets the token signed for the new `_id` |
| UserControllerFacts.RegisterFailureKeepsStore | server/controllers/userController.js:29-73 | a failing register leaves the collection unchanged unless the failure was in token signing |
| UserControllerFacts.RegisterSigningFailureKeepsAccount | server/controllers/userController.js:47-55 | after validation, when signing throws after a successful save, the reply is 500 with the thrown message, yet the new account stays stored |
| UserControllerFacts.RegisterPreservesUniqueEmails | server/controllers/userController.js:35-54 | if no two stored documents share an email before a register, none do after it |
| UserControllerFacts.RegisterTwiceConflicts | server/controllers/userController.js:35-40 | after a successful register, a second register with the same email, its fields present and non-blank and its lookup not throwing, answers 409 and leaves the collection as the first register left it |
| UserControllerFacts.LoginRejectsMissing | server/controllers/userController.js:80-84 | login answers 400 "Please Provide all credentials" exactly when the email or password is absent or blank |
| UserControllerFacts.LoginFailuresIndistinguishable | server/controllers/userController.js:85-91 | an unknown email and a stored email with a wrong password give the identical reply: 400, "Invalid email or password", no user, no cookie |
| UserControllerFacts.LoginSucceeds | server/controllers/userController.js:92-107 | a stored email with a verifying password and no failing call gives 201 "LoggedIn Successfully", the stored account's `{_id, name, email}` and the token cookie signed for its `_id` |
| UserControllerFacts.LoginStoredAccount | server/controllers/userController.js:85-107 | when emails are unique, no call in the login throws, and the email and password are non-blank, a stored document's email and a password that verifies against its hash log in as exactly that document |
| UserControllerFacts.LoginReadsOnlyLookup | server/controllers/userController.js:85 | login sees the collection only through the lookup of the given email |
| UserControllerFacts.RegisterThenLogin | server/controllers/userController.js:26-107 | with a sound bcrypt and no call in the login throwing, logging in right after a successful register with the same email and password succeeds and shows the same user |
| UserControllerFacts.RegisterKeepsOtherLogins | server/controllers/userController.js:35-107 | a register does not change the outcome of a login with any other email |
| UserControllerFacts.LogoutClearsLoginCookie | server/controllers/userController.js:93-119 | logout clears the cookie that login sets, with the same name, HttpOnly and Secure settings. Its SameSite matches the issued one exactly outside production |

## Left out

- Express plumbing is not modelled: the app, the middleware, the routes and `app.listen` in server/server.js. The reply is a value, not an `res` object that a handler mutates.
- server/models/sessionModel.js is not modelled. It only declares a schema, and no handler uses it.
- `userModel.js`, `userRoutes.js` and `config/mongodb.js` are not part of this model.
- bcrypt internals are left out: salt generation, the cost factor of 10 and constant-time comparison. Hashing and comparing are uninterpreted, with `Sound` as their only assumed law.
- jsonwebtoken internals are left out, including the `expiresIn: "7d"` claim and the issued-at time (`iat`) read from the clock. Signing is an uninterpreted function of `_id` and secret, so two signings of one `_id` give the same token here, while real tokens differ from one second to the next. No stated property relies on this.
- `JWT_SECRET` is always present in the model (`Config.jwtSecret` is a string). In the source, an unset or empty secret makes `jwt.sign` throw on every call, so every register that passes validation stores the account and then answers 500, and every login that verifies answers 500. The model expresses this only as a `Signing` fault on each such request.
- Randomness, `_id` generation and thrown errors are parameters (`Effects`). The text of a thrown message is whatever the environment supplies.
- Two concurrent registers of one email can both pass `findOne` before either runs `save`. A sequential model cannot express this race.
- Each request is modelled with at most one throwing call, because the first throw ends the handler.
- Body fields are modelled as absent, `null` or a string. A non-string field that the blank check reaches makes `.trim()` throw, which gives 500 in the source; the model does not cover this. Because `||` stops early, a non-string field after a blank one still gives 400, and login never reads `name`. A request with no parsed body is not covered either.
- Strings are sequences of Unicode scalar values. A JavaScript string holding a lone surrogate code unit cannot be expressed.
- Logout's catch branch is not modelled. `res.clearCookie` with these fixed options does not throw, so that 500 path cannot happen.
- The model does not cover `res.cookie` or `res.json` throwing.
