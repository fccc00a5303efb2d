/**
 * `backend/src/middlewares/csrf.ts`: the configuration of the double-submit CSRF
 * protection. The `csrf-csrf` library itself is not part of this model: its check is
 * taken to accept a request exactly when the submitted token equals
 * `sign(secret, sessionIdentifier)`, which is also the token it issues.
 */
module Csrf {
  import opened Wrappers
  import opened Errors
  import opened JsValues
  import opened Http

  /**
   * The `x-csrf-token` header as the handler's type admits it: absent, a string, or an
   * array. Node joins a repeated header into one string, so the array case is what the
   * type allows rather than what Node delivers.
   */
  datatype HeaderValue = NoHeader | Single(s: string) | Repeated(items: seq<string>)

  /** The parts of a request the CSRF middleware reads. */
  datatype CsrfRequest = CsrfRequest(
    verb: Method,
    refreshCookie: Option<string>,  // the refresh-token cookie
    ip: Option<string>,             // `req.ip`, None when undefined
    userAgent: Option<string>,      // the `user-agent` header
    csrfHeader: HeaderValue,
    bodyCsrf: Option<Json>,         // `req.body?._csrf`, None when undefined
    queryCsrf: QueryValue)          // `req.query?._csrf`

  /** The hash and signing primitives and the server secret (`CSRF_SECRET`). */
  datatype CsrfKeys = CsrfKeys(secret: string, sha256Hex: string -> string, sign: (string, string) -> string)

  /** `${x}` in a template literal: an undefined value prints as "undefined". */
  function TemplateText(x: Option<string>): string
  {
    match x
    case Some(s) => s
    case None => "undefined"
  }

  /** The value hashed into the session identifier: the refresh cookie, else `ip-userAgent`. */
  function SessionRaw(req: CsrfRequest): (r: string)
    ensures req.refreshCookie.Some? && req.refreshCookie.value != "" ==> r == req.refreshCookie.value
    ensures !(req.refreshCookie.Some? && req.refreshCookie.value != "") ==>
              r == TemplateText(req.ip) + "-" + req.userAgent.GetOr("")
  {
    match req.refreshCookie
    case Some(c) =>
      if c != "" then c else TemplateText(req.ip) + "-" + req.userAgent.GetOr("")
    case None => TemplateText(req.ip) + "-" + req.userAgent.GetOr("")
  }

  /** `getSessionIdentifier`: the SHA-256 hex digest of the raw session value. */
  function SessionIdentifier(req: CsrfRequest, keys: CsrfKeys): string
  {
    keys.sha256Hex(SessionRaw(req))
  }

  /** Once a refresh cookie is set, the session identifier ignores address and user agent. */
  lemma CookieDecidesSession(a: CsrfRequest, b: CsrfRequest, keys: CsrfKeys)
    requires a.refreshCookie == b.refreshCookie && a.refreshCookie.Some? && a.refreshCookie.value != ""
    ensures SessionIdentifier(a, keys) == SessionIdentifier(b, keys)
  {
  }

  /** Without a cookie, requests from the same address and user agent share a session. */
  lemma ClientDecidesSessionBeforeLogin(a: CsrfRequest, b: CsrfRequest, keys: CsrfKeys)
    requires a.refreshCookie.None? && b.refreshCookie.None?
    requires a.ip == b.ip && a.userAgent.GetOr("") == b.userAgent.GetOr("")
    ensures SessionIdentifier(a, keys) == SessionIdentifier(b, keys)
  {
  }

  /** Where the submitted token was found. */
  datatype Channel = FromHeader | FromBody | FromQuery | Defaulted

  /** The submitted value: a string, or some other non-nullish value. */
  datatype TokenValue = TokenText(s: string) | NotText

  datatype Submitted = Submitted(channel: Channel, value: TokenValue)

  /** The header's value; a repeated header contributes its first occurrence. */
  function HeaderToken(h: HeaderValue): (r: Option<string>)
    ensures h.Repeated? ==> r == (if |h.items| > 0 then Some(h.items[0]) else None)
  {
    match h
    case NoHeader => None
    case Single(s) => Some(s)
    case Repeated(items) => if |items| > 0 then Some(items[0]) else None
  }

  /** A body value that is neither null nor undefined. */
  function BodyToken(v: Option<Json>): Option<TokenValue>
  {
    match v
    case None => None
    case Some(JNull) => None
    case Some(JStr(s)) => Some(TokenText(s))
    case Some(_) => Some(NotText)
  }

  function QueryToken(q: QueryValue): Option<TokenValue>
  {
    match q
    case Missing => None
    case Text(s) => Some(TokenText(s))
    case _ => Some(NotText)
  }

  /**
   * `getCsrfTokenFromRequest`: header ?? body._csrf ?? query._csrf ?? ''. Only a null or
   * undefined value falls through, so an empty header still wins.
   */
  function SubmittedToken(req: CsrfRequest): (r: Submitted)
    ensures HeaderToken(req.csrfHeader).Some? <==> r.channel == FromHeader
    ensures r.channel == FromHeader ==> r.value == TokenText(HeaderToken(req.csrfHeader).value)
    ensures r.channel == FromBody <==> HeaderToken(req.csrfHeader).None? && BodyToken(req.bodyCsrf).Some?
    ensures r.channel == FromBody ==> r.value == BodyToken(req.bodyCsrf).value
    ensures r.channel == FromQuery <==>
              HeaderToken(req.csrfHeader).None? && BodyToken(req.bodyCsrf).None? && QueryToken(req.queryCsrf).Some?
    ensures r.channel == FromQuery ==> r.value == QueryToken(req.queryCsrf).value
    ensures r.channel == Defaulted ==> r.value == TokenText("")
  {
    match HeaderToken(req.csrfHeader)
    case Some(h) => Submitted(FromHeader, TokenText(h))
    case None =>
      match BodyToken(req.bodyCsrf)
      case Some(b) => Submitted(FromBody, b)
      case None =>
        match QueryToken(req.queryCsrf)
        case Some(q) => Submitted(FromQuery, q)
        case None => Submitted(Defaulted, TokenText(""))
  }

  /** `ignoredMethods`: the read-only methods the protection lets through unchecked. */
  predicate IsIgnoredMethod(m: Method)
  {
    m == GET || m == HEAD || m == OPTIONS
  }

  /** The token the library issues for, and expects from, this request's session. */
  function ExpectedToken(req: CsrfRequest, keys: CsrfKeys): string
  {
    keys.sign(keys.secret, SessionIdentifier(req, keys))
  }

  /**
   * `doubleCsrfProtection`: exempt methods pass, others must submit the expected token.
   * The library's CSRF cookie and its random token are not modelled.
   */
  function Protect(req: CsrfRequest, keys: CsrfKeys): (r: Result<()>)
    ensures IsIgnoredMethod(req.verb) ==> r.Ok?
    ensures !IsIgnoredMethod(req.verb) ==>
              (r.Ok? <==> SubmittedToken(req).value == TokenText(ExpectedToken(req, keys)))
    ensures r.Err? ==> r.error == InvalidCsrfToken
  {
    if IsIgnoredMethod(req.verb) then Ok(())
    else if SubmittedToken(req).value == TokenText(ExpectedToken(req, keys)) then Ok(())
    else Err(InvalidCsrfToken)
  }

  /**
   * A token issued to a session is accepted on a mutating request of the same session,
   * whichever channel carries it; repeated issuing yields the same valid token.
   */
  lemma IssuedTokenAccepted(issuedTo: CsrfRequest, req: CsrfRequest, keys: CsrfKeys)
    requires SessionRaw(issuedTo) == SessionRaw(req)
    requires SubmittedToken(req).value == TokenText(ExpectedToken(issuedTo, keys))
    ensures Protect(req, keys).Ok?
  {
  }

  /**
   * An empty header shadows a correct token in the body: unless the expected token is
   * itself empty, the request is refused.
   */
  lemma EmptyHeaderShadowsBody(req: CsrfRequest, keys: CsrfKeys)
    requires !IsIgnoredMethod(req.verb)
    requires req.csrfHeader == Single("") && ExpectedToken(req, keys) != ""
    ensures Protect(req, keys) == Err(InvalidCsrfToken)
  {
  }

  /** The generator functions the installed `csrf-csrf` version happens to export. */
  datatype CsrfUtils = CsrfUtils(hasGenerateToken: bool, hasGenerateCsrfToken: bool)

  datatype Generator = UseGenerateToken | UseGenerateCsrfToken

  /** `generateCsrfToken`: `generateToken` if present, else `generateCsrfToken`, else throw. */
  function PickGenerator(utils: CsrfUtils): (r: Result<Generator>)
    ensures r.Ok? <==> utils.hasGenerateToken || utils.hasGenerateCsrfToken
    ensures utils.hasGenerateToken ==> r == Ok(UseGenerateToken)
    ensures !utils.hasGenerateToken && utils.hasGenerateCsrfToken ==> r == Ok(UseGenerateCsrfToken)
    ensures r.Err? ==> r.error == Unmapped(NoCsrfGenerator)
  {
    if utils.hasGenerateToken then Ok(UseGenerateToken)
    else if utils.hasGenerateCsrfToken then Ok(UseGenerateCsrfToken)
    else Err(Unmapped(NoCsrfGenerator))
  }

  /** The CSRF cookie: strict same-site, whole site, HTTP-only, one hour, secure in production. */
  function CsrfCookieOptions(nodeEnv: string): (r: CookieOptions)
    ensures r.secure <==> nodeEnv == "production"
    ensures r.sameSite == "strict" && r.path == "/" && r.httpOnly
    ensures r.maxAge == 60 * 60 * 1000
  {
    CookieOptions(true, "strict", nodeEnv == "production", "/", 3600000)
  }
}
