/**
 * The `token` session cookie: the attributes the controller passes to
 * `res.cookie` when it issues the cookie and to `res.clearCookie` when it
 * clears it, both chosen by whether the server runs in production.
 */
module Cookies {

  /** The `sameSite` option's values; `None` is the literal "None", not an absent option. */
  datatype SameSite = Strict | Lax | None

  datatype Attributes = Attributes(httpOnly: bool, secure: bool, sameSite: SameSite)

  /** What a handler does to the client's cookie jar. */
  datatype Action =
    | NoCookie
    | Set(name: string, value: string, attrs: Attributes, maxAgeMs: nat)
    | Clear(name: string, attrs: Attributes)

  const TokenCookie: string := "token"

  /** Seven days, in milliseconds. */
  const TokenMaxAgeMs: nat := 7 * 24 * 60 * 60 * 1000

  function IssueAttributes(production: bool): Attributes
  {
    Attributes(true, production, if production then Strict else Lax)
  }

  function ClearAttributes(production: bool): Attributes
  {
    Attributes(true, production, if production then None else Lax)
  }

  /** `res.cookie("token", value, {...})` in register and login. */
  function Issue(value: string, production: bool): (a: Action)
    ensures a.Set? && a.name == TokenCookie && a.value == value && a.maxAgeMs == 604800000
    ensures a.attrs.httpOnly && (a.attrs.secure <==> production)
    ensures a.attrs.sameSite == Strict <==> production
  {
    Set(TokenCookie, value, IssueAttributes(production), TokenMaxAgeMs)
  }

  /** `res.clearCookie("token", {...})` in Logout. */
  function ClearToken(production: bool): (a: Action)
    ensures a.Clear? && a.name == TokenCookie
    ensures a.attrs.httpOnly && (a.attrs.secure <==> production)
    ensures a.attrs.sameSite == None <==> production
  {
    Clear(TokenCookie, ClearAttributes(production))
  }

  /**
   * The attribute policy: HttpOnly always, Secure only in production, a
   * seven-day max-age on issue, and a SameSite value that issue and clear
   * agree on only outside production (Strict versus None in production).
   */
  lemma TokenCookiePolicy(value: string, production: bool)
    ensures Issue(value, production).name == ClearToken(production).name == "token"
    ensures Issue(value, production).maxAgeMs == 604800000
    ensures Issue(value, production).attrs.httpOnly && ClearToken(production).attrs.httpOnly
    ensures Issue(value, production).attrs.secure == ClearToken(production).attrs.secure == production
    ensures Issue(value, production).attrs.sameSite == (if production then Strict else Lax)
    ensures ClearToken(production).attrs.sameSite == (if production then None else Lax)
    ensures Issue(value, production).attrs == ClearToken(production).attrs <==> !production
  {
  }
}
