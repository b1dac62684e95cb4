/** What the three handlers guarantee, alone and in sequence. */
module UserControllerFacts {
  import opened Wrappers
  import opened JsString
  import opened Collaborators
  import opened Accounts
  import opened UserController
  import Cookies

  // ------------------------------------------------------------ deployment

  /**
   * Production mode needs `NODE_ENV` to be exactly "production": an unset
   * variable, another capitalisation or surrounding blanks all leave the
   * cookie policy in its development form.
   */
  lemma ProductionIsExactMatch(secret: string)
    ensures IsProduction(Config(Some("production"), secret))
    ensures !IsProduction(Config(None, secret))
    ensures !IsProduction(Config(Some("Production"), secret))
    ensures !IsProduction(Config(Some(" production"), secret))
    ensures !IsProduction(Config(Some("development"), secret))
  {
  }

  // ---------------------------------------------------------------- register

  /** Register answers 400 "Please Provide All Credentials" with the store untouched exactly when a field is missing or blank. */
  lemma RegisterRejectsMissing(cfg: Config, c: Crypto, docs: seq<Account>, input: Credentials, fx: Effects)
    ensures RegisterOutcome(cfg, c, docs, input, fx) == RegisterResult(Failure(BAD_REQUEST, RegisterMissingMessage), docs)
            <==> RegisterMissing(input)
  {
  }

  /** In particular a whitespace-only name, email or password is rejected like a missing one. */
  lemma RegisterRejectsWhitespaceOnly(cfg: Config, c: Crypto, docs: seq<Account>, input: Credentials, fx: Effects, s: string)
    requires AllTrimmable(s)
    requires input.name == Some(s) || input.email == Some(s) || input.password == Some(s)
    ensures RegisterOutcome(cfg, c, docs, input, fx) == RegisterResult(Failure(BAD_REQUEST, RegisterMissingMessage), docs)
  {
    BlankIffWhitespaceOnly(s);
  }

  /**
   * An email already in the store gives 409 and no change, whatever the
   * password: the duplicate check runs before the length check, so a short
   * password with a taken email still gets 409.
   */
  lemma RegisterConflict(cfg: Config, c: Crypto, docs: seq<Account>, input: Credentials, fx: Effects, i: nat)
    requires !RegisterMissing(input) && !fx.Throws(Lookup)
    requires i < |docs| && docs[i].email == input.email.value
    ensures RegisterOutcome(cfg, c, docs, input, fx) == RegisterResult(Failure(CONFLICT, UserExistsMessage), docs)
  {
  }

  /**
   * Past the first two checks, the password check rejects exactly the
   * passwords shorter than five UTF-16 code units, measured untrimmed.
   */
  lemma RegisterPasswordBoundary(cfg: Config, c: Crypto, docs: seq<Account>, input: Credentials, fx: Effects)
    requires !RegisterMissing(input) && !fx.Throws(Lookup)
    ensures Find(docs, input.email.value).None? ==>
      (RegisterOutcome(cfg, c, docs, input, fx).response == Failure(BAD_REQUEST, ShortPasswordMessage)
       <==> Utf16Length(input.password.value) < 5)
  {
  }

  /** Length 4 is rejected and length 5 accepted. */
  lemma PasswordLengthBoundaryExamples()
    ensures ShortPassword("abcd")
    ensures !ShortPassword("abcde")
  {
    assert "abcd"[1..] == "bcd" && "bcd"[1..] == "cd" && "cd"[1..] == "d" && "d"[1..] == "";
    assert "abcde"[1..] == "bcde" && "bcde"[1..] == "cde";
  }

  /** "  ab  " trims to "ab", so it is not blank. */
  lemma PaddedTrimExample()
    ensures Trim("  ab  ") == "ab"
    ensures !IsBlank(Some("  ab  "))
  {
    assert IsTrimmable(' ') && !IsTrimmable('a') && !IsTrimmable('b');
    TrimStartStep("  ab  ");
    assert "  ab  "[1..] == " ab  ";
    TrimStartStep(" ab  ");
    assert " ab  "[1..] == "ab  ";
    TrimStartKeeps("ab  ");
    TrimEndStep("ab  ");
    assert "ab  "[..3] == "ab ";
    TrimEndStep("ab ");
    assert "ab "[..2] == "ab";
    TrimEndKeeps("ab");
  }

  /** "  ab  " passes the length test although it trims to two characters: register compares the raw `password.length`. */
  lemma PaddedPasswordExample()
    ensures |Trim("  ab  ")| == 2 && !ShortPassword("  ab  ")
  {
    PaddedTrimExample();
    assert Utf16Length("  ab  ") >= |"  ab  "| == 6;
  }

  /**
   * A register that gets past validation and meets no failing call answers
   * 201 and appends exactly one document: the untrimmed name and email and
   * the bcrypt hash of the password.
   */
  lemma RegisterSucceeds(cfg: Config, c: Crypto, docs: seq<Account>, input: Credentials, fx: Effects)
    requires !RegisterMissing(input) && fx.fault.None?
    ensures Find(docs, input.email.value).None? && !ShortPassword(input.password.value) ==>
              RegisterOutcome(cfg, c, docs, input, fx).response.status == CREATED
  {
  }

  /**
   * Every 201 from register appends exactly the one new document, replies with
   * its `_id`, name and email only, and sets the token cookie signed for that
   * `_id`.
   */
  lemma RegisterCreated(cfg: Config, c: Crypto, docs: seq<Account>, input: Credentials, fx: Effects)
    ensures var o := RegisterOutcome(cfg, c, docs, input, fx);
      o.response.status == CREATED ==>
      && !RegisterMissing(input) && !fx.Throws(Saving) && !fx.Throws(Signing)
      && Find(docs, input.email.value).None? && !ShortPassword(input.password.value)
      && o.accounts == docs + [NewAccount(c, input, fx)]
      && o.response.message == UserCreatedMessage
      && o.response.user == Some(UserView(fx.newId, input.name.value, input.email.value))
      && o.response.cookie == Cookies.Issue(c.sign(fx.newId, cfg.jwtSecret), IsProduction(cfg))
  {
    if !RegisterMissing(input) {
      assert RegisterOutcome(cfg, c, docs, input, fx).response.status == CREATED ==>
        RegisterOutcome(cfg, c, docs, input, fx) == CreateAccount(cfg, c, docs, input, fx);
    }
  }

  /** Every failing register leaves the store unchanged, except a signing failure after the save. */
  lemma RegisterFailureKeepsStore(cfg: Config, c: Crypto, docs: seq<Account>, input: Credentials, fx: Effects)
    ensures var o := RegisterOutcome(cfg, c, docs, input, fx);
      o.response.status != CREATED && !fx.Throws(Signing) ==> o.accounts == docs
  {
  }

  /**
   * As written, a token-signing throw comes after `newUser.save()`: once
   * validation has passed (and `RegisterOutcome` hands over to
   * `CreateAccount`), the client receives 500 and no cookie, yet the account
   * has been created.
   */
  lemma RegisterSigningFailureKeepsAccount(cfg: Config, c: Crypto, docs: seq<Account>, input: Credentials, fx: Effects)
    requires !RegisterMissing(input) && fx.Throws(Signing)
    ensures var o := CreateAccount(cfg, c, docs, input, fx);
      && o.response == Failure(INTERNAL_ERROR, fx.fault.value.message)
      && o.accounts == docs + [NewAccount(c, input, fx)]
  {
  }

  /** Register keeps the collection free of duplicate emails. */
  lemma RegisterPreservesUniqueEmails(cfg: Config, c: Crypto, docs: seq<Account>, input: Credentials, fx: Effects)
    requires UniqueEmails(docs)
    ensures UniqueEmails(RegisterOutcome(cfg, c, docs, input, fx).accounts)
  {
    var o := RegisterOutcome(cfg, c, docs, input, fx);
    if o.accounts != docs {
      UniqueEmailsAppend(docs, NewAccount(c, input, fx));
    }
  }

  /** Registering the same email a second time gets 409 and changes nothing. */
  lemma RegisterTwiceConflicts(cfg: Config, c: Crypto, docs: seq<Account>, first: Credentials, fx1: Effects,
                               second: Credentials, fx2: Effects)
    requires !RegisterMissing(second) && second.email == first.email && !fx2.Throws(Lookup)
    ensures var o := RegisterOutcome(cfg, c, docs, first, fx1);
      o.response.status == CREATED ==>
        RegisterOutcome(cfg, c, o.accounts, second, fx2) == RegisterResult(Failure(CONFLICT, UserExistsMessage), o.accounts)
  {
    RegisterCreated(cfg, c, docs, first, fx1);
    if !RegisterMissing(first) {
      FindAppend(docs, NewAccount(c, first, fx1), first.email.value);
    }
  }

  // ------------------------------------------------------------------- login

  /** Login answers 400 "Please Provide all credentials" exactly when the email or password is missing or blank. */
  lemma LoginRejectsMissing(cfg: Config, c: Crypto, docs: seq<Account>, input: Credentials, fx: Effects)
    ensures LoginResponse(cfg, c, docs, input, fx) == Failure(BAD_REQUEST, LoginMissingMessage) <==> LoginMissing(input)
  {
  }

  /** An unknown email and a wrong password get the very same response. */
  lemma LoginFailuresIndistinguishable(cfg: Config, c: Crypto, docs: seq<Account>, input: Credentials, fx: Effects,
                                       docs': seq<Account>, input': Credentials, fx': Effects)
    requires !LoginMissing(input) && !fx.Throws(Lookup)
    requires !LoginMissing(input') && !fx'.Throws(Lookup) && !fx'.Throws(Comparing)
    ensures var unknown := Find(docs, input.email.value);
      var found := Find(docs', input'.email.value);
      unknown.None? && found.Some? && !c.compare(input'.password.value, found.value.password) ==>
        LoginResponse(cfg, c, docs, input, fx) == LoginResponse(cfg, c, docs', input', fx')
                                               == Failure(BAD_REQUEST, InvalidCredentialsMessage)
  {
  }

  /** A login with a stored email and a verifying password, meeting no failing call, answers 201 and sets the token. */
  lemma LoginSucceeds(cfg: Config, c: Crypto, docs: seq<Account>, input: Credentials, fx: Effects)
    requires !LoginMissing(input) && fx.fault.None?
    ensures var found := Find(docs, input.email.value);
      found.Some? && c.compare(input.password.value, found.value.password) ==>
      var a := found.value;
      LoginResponse(cfg, c, docs, input, fx)
        == Response(CREATED, true, LoggedInMessage, Some(View(a)), Cookies.Issue(c.sign(a.id, cfg.jwtSecret), IsProduction(cfg)))
  {
  }

  /** With a sound bcrypt, logging in right after registering with the same email and password succeeds as that user. */
  lemma RegisterThenLogin(cfg: Config, c: Crypto, docs: seq<Account>, input: Credentials, fx1: Effects, fx2: Effects)
    requires Sound(c) && fx2.fault.None?
    ensures var o := RegisterOutcome(cfg, c, docs, input, fx1);
      var r := LoginResponse(cfg, c, o.accounts, Credentials(None, input.email, input.password), fx2);
      o.response.status == CREATED ==> r.status == CREATED && r.user == o.response.user
  {
    RegisterCreated(cfg, c, docs, input, fx1);
    if RegisterOutcome(cfg, c, docs, input, fx1).response.status != CREATED {
      return;
    }
    var a := NewAccount(c, input, fx1);
    var login := Credentials(None, input.email, input.password);
    FindAppend(docs, a, input.email.value);
    assert Find(docs + [a], input.email.value) == Some(a);
    LoginSucceeds(cfg, c, docs + [a], login, fx2);
    assert LoginResponse(cfg, c, docs + [a], login, fx2).user == Some(View(a));
  }

  /**
   * In a collection with unique emails, every stored document can log in:
   * its email and a password that verifies against its hash give 201 as that
   * very document, not some other one with the same email.
   */
  lemma LoginStoredAccount(cfg: Config, c: Crypto, docs: seq<Account>, i: nat, password: string, fx: Effects)
    requires UniqueEmails(docs) && i < |docs| && fx.fault.None?
    requires !IsBlank(Some(docs[i].email)) && !IsBlank(Some(password)) && c.compare(password, docs[i].password)
    ensures LoginResponse(cfg, c, docs, Credentials(None, Some(docs[i].email), Some(password)), fx)
              == Issued(cfg, docs[i], c.sign(docs[i].id, cfg.jwtSecret), LoggedInMessage)
  {
    FindUnique(docs, i);
  }

  /** Login sees the store only through the lookup of the given email. */
  lemma LoginReadsOnlyLookup(cfg: Config, c: Crypto, docs: seq<Account>, docs': seq<Account>, input: Credentials, fx: Effects)
    requires input.email.Some? && Find(docs, input.email.value) == Find(docs', input.email.value)
    ensures LoginResponse(cfg, c, docs, input, fx) == LoginResponse(cfg, c, docs', input, fx)
  {
  }

  /** A register changes no login for any other email. */
  lemma RegisterKeepsOtherLogins(cfg: Config, c: Crypto, docs: seq<Account>, input: Credentials, fx1: Effects,
                                 login: Credentials, fx2: Effects)
    requires input.email.Some? && login.email.Some? && login.email != input.email
    ensures var after := RegisterOutcome(cfg, c, docs, input, fx1).accounts;
      LoginResponse(cfg, c, after, login, fx2) == LoginResponse(cfg, c, docs, login, fx2)
  {
    var o := RegisterOutcome(cfg, c, docs, input, fx1);
    if o.accounts != docs {
      FindAppend(docs, NewAccount(c, input, fx1), login.email.value);
      LoginReadsOnlyLookup(cfg, c, docs, o.accounts, login, fx2);
    }
  }

  // ------------------------------------------------------------------ logout

  /**
   * Logout clears the cookie login sets, under the same name, HttpOnly and
   * Secure flags; its SameSite matches issuance only outside production.
   */
  lemma LogoutClearsLoginCookie(cfg: Config, c: Crypto, docs: seq<Account>, input: Credentials, fx: Effects)
    ensures var r := LoginResponse(cfg, c, docs, input, fx);
      var issued := r.cookie;
      var clear := Logout(cfg).cookie;
      r.status == CREATED ==>
      && issued.name == clear.name == Cookies.TokenCookie
      && issued.attrs.httpOnly == clear.attrs.httpOnly
      && issued.attrs.secure == clear.attrs.secure
      && (issued.attrs.sameSite == clear.attrs.sameSite <==> !IsProduction(cfg))
  {
  }
}
