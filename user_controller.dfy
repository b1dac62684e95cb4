/**
 * The user controller: the `register`, `login` and `Logout` request
 * handlers. Each handler is specified by a function of the configuration,
 * the collaborators, the collection and the request body (`RegisterOutcome`,
 * `LoginResponse`, `Logout`); `Register` and `Login` are the step-by-step
 * handlers, proved to produce exactly what those functions say.
 */
module UserController {
  import opened Wrappers
  import opened JsString
  import opened Collaborators
  import opened Accounts
  import Cookies

  /** The process environment the controller reads. */
  datatype Config = Config(nodeEnv: Option<string>, jwtSecret: string)

  /** `process.env.NODE_ENV === "production"` */
  predicate IsProduction(cfg: Config)
  {
    cfg.nodeEnv == Some("production")
  }

  /** The string fields of `req.body` the handlers destructure; Logout reads none. */
  datatype Credentials = Credentials(name: Option<string>, email: Option<string>, password: Option<string>)

  /** The `user` object of a success body: `_id`, `name`, `email`, and no password. */
  datatype UserView = UserView(id: ObjectId, name: string, email: string)

  /** What the handler leaves on `res`: status, JSON body, and what it did to the cookie. */
  datatype Response = Response(status: nat, success: bool, message: string, user: Option<UserView>, cookie: Cookies.Action)

  /** A register response together with the collection after the request. */
  datatype RegisterResult = RegisterResult(response: Response, accounts: seq<Account>)

  const OK: nat := 200
  const CREATED: nat := 201
  const BAD_REQUEST: nat := 400
  const CONFLICT: nat := 409
  const INTERNAL_ERROR: nat := 500

  const MinPasswordLength: nat := 5

  const RegisterMissingMessage := "Please Provide All Credentials"
  const UserExistsMessage := "User already Exist"
  const ShortPasswordMessage := "Password should be minimum of 5 characters"
  const UserCreatedMessage := "User Created Successfully"
  const LoginMissingMessage := "Please Provide all credentials"
  const InvalidCredentialsMessage := "Invalid email or password"
  const LoggedInMessage := "LoggedIn Successfully"
  const LoggedOutMessage := "Logged out successfully"

  /** A failure body: `{ success: false, message }` with no user and no cookie change. */
  function Failure(status: nat, message: string): Response
  {
    Response(status, false, message, None, Cookies.NoCookie)
  }

  function View(a: Account): UserView
  {
    UserView(a.id, a.name, a.email)
  }

  /** `createToken(id)`: signs `{ id }` with the server's secret, or throws. */
  function CreateToken(cfg: Config, c: Crypto, id: ObjectId, fx: Effects): (r: Result<string>)
    ensures r.Err? <==> fx.Throws(Signing)
    ensures r.Err? ==> r.message == fx.fault.value.message
    ensures r.Ok? ==> r.value == c.sign(id, cfg.jwtSecret)
  {
    fx.Attempt(Signing, c.sign(id, cfg.jwtSecret))
  }

  /** The 201 reply of a successful register or login: the token cookie is set and the user is shown. */
  function Issued(cfg: Config, user: Account, token: string, message: string): Response
  {
    Response(CREATED, true, message, Some(View(user)), Cookies.Issue(token, IsProduction(cfg)))
  }

  /** The first step of register: some field is missing or trims to "". */
  predicate RegisterMissing(input: Credentials)
  {
    IsBlank(input.name) || IsBlank(input.email) || IsBlank(input.password)
  }

  /** The first step of login; it never reads `name`. */
  predicate LoginMissing(input: Credentials)
  {
    IsBlank(input.email) || IsBlank(input.password)
  }

  /** The password check of register, on the untrimmed password's UTF-16 length. */
  predicate ShortPassword(password: string)
    ensures ShortPassword(password) ==> |password| < MinPasswordLength
    ensures |password| <= 2 ==> ShortPassword(password)
    ensures (forall i :: 0 <= i < |password| ==> password[i] as int < 0x1_0000) ==>
              (ShortPassword(password) <==> |password| < MinPasswordLength)
  {
    Utf16Length(password) < MinPasswordLength
  }

  /** The document a successful register stores: the untrimmed name and email, and the password's hash. */
  function NewAccount(c: Crypto, input: Credentials, fx: Effects): (a: Account)
    requires !RegisterMissing(input)
    ensures a.password == c.hash(input.password.value, fx.salt)
    ensures Sound(c) ==> a.password != input.password.value && c.compare(input.password.value, a.password)
  {
    var password := input.password.value;
    assert Sound(c) ==> c.compare(password, c.hash(password, fx.salt)) && c.hash(password, fx.salt) != password;
    Account(fx.newId, input.name.value, input.email.value, c.hash(password, fx.salt))
  }

  /**
   * The `register` handler. Checks run in the source's order: missing
   * fields (400), an existing email (409), a short password (400); then the
   * password is hashed, the document saved and the token signed. A throw at
   * any awaited call gives 500 with the error's message.
   */
  function RegisterOutcome(cfg: Config, c: Crypto, docs: seq<Account>, input: Credentials, fx: Effects): (o: RegisterResult)
    ensures o.response.status in {CREATED, BAD_REQUEST, CONFLICT, INTERNAL_ERROR}
    ensures o.response.success <==> o.response.status == CREATED
    ensures o.response.user.Some? <==> o.response.status == CREATED
    ensures o.response.cookie.Set? <==> o.response.status == CREATED
    ensures !o.response.cookie.Clear?
    ensures o.response.status == CREATED ==> o.accounts != docs
    ensures !RegisterMissing(input) && fx.Throws(Lookup) ==>
              o == RegisterResult(Failure(INTERNAL_ERROR, fx.fault.value.message), docs)
    ensures o.response.status == CONFLICT <==>
              !RegisterMissing(input) && !fx.Throws(Lookup) && Find(docs, input.email.value).Some?
    ensures o.response.status == CONFLICT ==> o == RegisterResult(Failure(CONFLICT, UserExistsMessage), docs)
    ensures o.accounts != docs ==>
      && !RegisterMissing(input) && Find(docs, input.email.value).None? && !ShortPassword(input.password.value)
      && o.accounts == docs + [NewAccount(c, input, fx)]
      && (o.response.status == CREATED || fx.Throws(Signing))
    ensures (!RegisterMissing(input) && !fx.Throws(Lookup) && Find(docs, input.email.value).None?
             && !ShortPassword(input.password.value)) ==> o == CreateAccount(cfg, c, docs, input, fx)
  {
    if RegisterMissing(input) then RegisterResult(Failure(BAD_REQUEST, RegisterMissingMessage), docs)
    else
      var email, password := input.email.value, input.password.value;
      var existing := fx.Attempt(Lookup, Find(docs, email));
      if existing.Err? then RegisterResult(Failure(INTERNAL_ERROR, existing.message), docs)
      else if existing.value.Some? then RegisterResult(Failure(CONFLICT, UserExistsMessage), docs)
      else if ShortPassword(password) then RegisterResult(Failure(BAD_REQUEST, ShortPasswordMessage), docs)
      else CreateAccount(cfg, c, docs, input, fx)
  }

  /**
   * The part of `register` after validation: salt, hash, save, sign. The
   * store changes exactly when the save succeeds, which includes the case
   * where signing then throws.
   */
  function CreateAccount(cfg: Config, c: Crypto, docs: seq<Account>, input: Credentials, fx: Effects): (o: RegisterResult)
    requires !RegisterMissing(input)
    ensures o.response.status in {CREATED, INTERNAL_ERROR}
    ensures o.response.status == CREATED <==> !(fx.Throws(SaltGen) || fx.Throws(Hashing) || fx.Throws(Saving) || fx.Throws(Signing))
    ensures o.accounts == if fx.Throws(SaltGen) || fx.Throws(Hashing) || fx.Throws(Saving) then docs
                          else docs + [NewAccount(c, input, fx)]
    ensures o.response.status == CREATED ==> o.response == Issued(cfg, NewAccount(c, input, fx), c.sign(fx.newId, cfg.jwtSecret), UserCreatedMessage)
    ensures o.response.status == INTERNAL_ERROR ==> o.response == Failure(INTERNAL_ERROR, fx.fault.value.message)
  {
    var salt := fx.Attempt(SaltGen, fx.salt);
    if salt.Err? then RegisterResult(Failure(INTERNAL_ERROR, salt.message), docs)
    else
      var hashed := fx.Attempt(Hashing, c.hash(input.password.value, salt.value));
      if hashed.Err? then RegisterResult(Failure(INTERNAL_ERROR, hashed.message), docs)
      else
        var user := fx.Attempt(Saving, Account(fx.newId, input.name.value, input.email.value, hashed.value));
        if user.Err? then RegisterResult(Failure(INTERNAL_ERROR, user.message), docs)
        else
          var token := CreateToken(cfg, c, user.value.id, fx);
          if token.Err? then RegisterResult(Failure(INTERNAL_ERROR, token.message), docs + [user.value])
          else RegisterResult(Issued(cfg, user.value, token.value, UserCreatedMessage), docs + [user.value])
  }

  /**
   * The `login` handler. Missing fields give 400; otherwise the email is
   * looked up and the password checked against what was found. A throw at
   * any awaited call gives 500.
   */
  function LoginResponse(cfg: Config, c: Crypto, docs: seq<Account>, input: Credentials, fx: Effects): (r: Response)
    ensures r.status in {CREATED, BAD_REQUEST, INTERNAL_ERROR}
    ensures r.success <==> r.status == CREATED
    ensures r.status != CREATED ==> r.user.None? && r.cookie.NoCookie?
    ensures !LoginMissing(input) && fx.Throws(Lookup) ==> r == Failure(INTERNAL_ERROR, fx.fault.value.message)
    ensures !LoginMissing(input) && !fx.Throws(Lookup) ==>
              r == Authenticate(cfg, c, Find(docs, input.email.value), input.password.value, fx)
    ensures r.status == CREATED ==>
      && input.email.Some? && input.password.Some?
      && Find(docs, input.email.value).Some?
      && c.compare(input.password.value, Find(docs, input.email.value).value.password)
      && r.user == Some(View(Find(docs, input.email.value).value))
      && r.cookie == Cookies.Issue(c.sign(r.user.value.id, cfg.jwtSecret), IsProduction(cfg))
  {
    if LoginMissing(input) then Failure(BAD_REQUEST, LoginMissingMessage)
    else
      var user := fx.Attempt(Lookup, Find(docs, input.email.value));
      if user.Err? then Failure(INTERNAL_ERROR, user.message)
      else Authenticate(cfg, c, user.value, input.password.value, fx)
  }

  /**
   * The part of `login` after the lookup. No account and a password that
   * does not verify give one and the same 400 reply, so a client cannot
   * tell which accounts exist.
   */
  function Authenticate(cfg: Config, c: Crypto, found: Option<Account>, password: string, fx: Effects): (r: Response)
    ensures r.status in {CREATED, BAD_REQUEST, INTERNAL_ERROR}
    ensures r.status == BAD_REQUEST <==> found.None? || (!fx.Throws(Comparing) && !c.compare(password, found.value.password))
    ensures r.status == BAD_REQUEST ==> r == Failure(BAD_REQUEST, InvalidCredentialsMessage)
    ensures r.status == CREATED <==>
              found.Some? && !fx.Throws(Comparing) && c.compare(password, found.value.password) && !fx.Throws(Signing)
    ensures r.status == INTERNAL_ERROR ==> fx.fault.Some? && r == Failure(INTERNAL_ERROR, fx.fault.value.message)
    ensures r.status == CREATED ==>
      && found.Some? && c.compare(password, found.value.password)
      && r == Issued(cfg, found.value, c.sign(found.value.id, cfg.jwtSecret), LoggedInMessage)
  {
    if found.None? then Failure(BAD_REQUEST, InvalidCredentialsMessage)
    else
      var account := found.value;
      var matches := fx.Attempt(Comparing, c.compare(password, account.password));
      if matches.Err? then Failure(INTERNAL_ERROR, matches.message)
      else if !matches.value then Failure(BAD_REQUEST, InvalidCredentialsMessage)
      else
        var token := CreateToken(cfg, c, account.id, fx);
        if token.Err? then Failure(INTERNAL_ERROR, token.message)
        else Issued(cfg, account, token.value, LoggedInMessage)
  }

  /** The `Logout` handler: it depends on the deployment mode alone and always clears the token cookie. */
  function Logout(cfg: Config): (r: Response)
    ensures r.status == OK && r.success && r.message == LoggedOutMessage && r.user.None?
    ensures r.cookie.Clear? && r.cookie.name == Cookies.TokenCookie
    ensures r.cookie.attrs.httpOnly && r.cookie.attrs.secure == IsProduction(cfg)
    ensures r.cookie.attrs.sameSite == if IsProduction(cfg) then Cookies.None else Cookies.Lax
    ensures r.cookie == Cookies.ClearToken(IsProduction(cfg))
  {
    Response(OK, true, LoggedOutMessage, None, Cookies.ClearToken(IsProduction(cfg)))
  }

  /** `register`, step by step against the store, returning at the first failure. */
  method Register(store: AccountStore, cfg: Config, c: Crypto, input: Credentials, fx: Effects) returns (res: Response)
    modifies store
    ensures RegisterResult(res, store.documents) == RegisterOutcome(cfg, c, old(store.documents), input, fx)
  {
    if RegisterMissing(input) {
      return Failure(BAD_REQUEST, RegisterMissingMessage);
    }
    var name, email, password := input.name.value, input.email.value, input.password.value;
    var existing := store.FindOne(email, fx);
    if existing.Err? {
      return Failure(INTERNAL_ERROR, existing.message);
    }
    if existing.value.Some? {
      return Failure(CONFLICT, UserExistsMessage);
    }
    if ShortPassword(password) {
      return Failure(BAD_REQUEST, ShortPasswordMessage);
    }
    var salt := fx.Attempt(SaltGen, fx.salt);
    if salt.Err? {
      return Failure(INTERNAL_ERROR, salt.message);
    }
    var hashed := fx.Attempt(Hashing, c.hash(password, salt.value));
    if hashed.Err? {
      return Failure(INTERNAL_ERROR, hashed.message);
    }
    var user := store.Save(Account(fx.newId, name, email, hashed.value), fx);
    if user.Err? {
      return Failure(INTERNAL_ERROR, user.message);
    }
    var token := CreateToken(cfg, c, user.value.id, fx);
    if token.Err? {
      return Failure(INTERNAL_ERROR, token.message);
    }
    res := Issued(cfg, user.value, token.value, UserCreatedMessage);
  }

  /** `login`, step by step; it only reads the store. */
  method Login(store: AccountStore, cfg: Config, c: Crypto, input: Credentials, fx: Effects) returns (res: Response)
    ensures res == LoginResponse(cfg, c, store.documents, input, fx)
  {
    if LoginMissing(input) {
      return Failure(BAD_REQUEST, LoginMissingMessage);
    }
    var email, password := input.email.value, input.password.value;
    var user := store.FindOne(email, fx);
    if user.Err? {
      return Failure(INTERNAL_ERROR, user.message);
    }
    if user.value.None? {
      return Failure(BAD_REQUEST, InvalidCredentialsMessage);
    }
    var account := user.value.value;
    var matches := fx.Attempt(Comparing, c.compare(password, account.password));
    if matches.Err? {
      return Failure(INTERNAL_ERROR, matches.message);
    }
    if !matches.value {
      return Failure(BAD_REQUEST, InvalidCredentialsMessage);
    }
    var token := CreateToken(cfg, c, account.id, fx);
    if token.Err? {
      return Failure(INTERNAL_ERROR, token.message);
    }
    res := Issued(cfg, account, token.value, LoggedInMessage);
  }
}
