/**
 * The CORS part of `backend/src/app.ts`: the origin allow-list, the `origin` callback
 * of the `cors` middleware and the middleware that sets the CORS headers explicitly.
 */
module Cors {
  import opened Wrappers
  import opened Errors
  import ErrorHandler

  const Localhost: string := "http://localhost"
  const LocalDevServer: string := "http://localhost:5173"

  /** `WHITELIST`: `ORIGIN_ALLOW` ("" when unset) and the two local origins, falsy entries removed. */
  function Whitelist(originAllow: string): (r: seq<string>)
    ensures Localhost in r && LocalDevServer in r
    ensures originAllow in r <==> originAllow != ""
    ensures forall o :: o in r ==> o != "" && (o == originAllow || o == Localhost || o == LocalDevServer)
  {
    (if originAllow != "" then [originAllow] else []) + [Localhost, LocalDevServer]
  }

  /** A request's `Origin` header is truthy when present and non-empty. */
  predicate HasOrigin(origin: Option<string>)
  {
    origin.Some? && origin.value != ""
  }

  /** The `origin` callback: no origin or a listed one is allowed, anything else is an error. */
  function OriginCallback(origin: Option<string>, whitelist: seq<string>): (r: Result<bool>)
    ensures r.Ok? <==> !HasOrigin(origin) || origin.value in whitelist
    ensures r.Ok? ==> r.value
    ensures r.Err? ==> r.error == Unmapped(CorsRejected)
  {
    if !HasOrigin(origin) || origin.value in whitelist then Ok(true) else Err(Unmapped(CorsRejected))
  }

  datatype CorsHeaders = CorsHeaders(
    allowOrigin: string,
    allowCredentials: string,
    allowHeaders: seq<string>,
    exposeHeaders: string,
    vary: string)

  const AllowedHeaders: seq<string> := [
    "Content-Type", "content-type", "Authorization", "authorization", "X-CSRF-Token",
    "x-csrf-token", "X-Requested-With", "x-requested-with", "Accept", "accept"]

  /**
   * The explicit header middleware: a listed origin is echoed, anything else gets the
   * local development origin; credentials are always allowed and caches vary on Origin.
   */
  function ExplicitHeaders(origin: Option<string>, whitelist: seq<string>): (r: CorsHeaders)
    requires LocalDevServer in whitelist
    ensures r.allowOrigin in whitelist
    ensures "*" !in whitelist ==> r.allowOrigin != "*"
    ensures r.allowOrigin == (if HasOrigin(origin) then origin.value else "") <==>
              HasOrigin(origin) && origin.value in whitelist
    ensures !(HasOrigin(origin) && origin.value in whitelist) ==> r.allowOrigin == LocalDevServer
    ensures r.allowCredentials == "true" && r.vary == "Origin"
  {
    var originToSet := if HasOrigin(origin) && origin.value in whitelist then origin.value else LocalDevServer;
    CorsHeaders(originToSet, "true", AllowedHeaders, "Set-Cookie", "Origin")
  }

  /**
   * A refused origin ends in the error handler as a 500 with the generic text, since the
   * callback's error carries no status code.
   */
  lemma RefusedOriginIsServerError(origin: Option<string>, whitelist: seq<string>)
    requires OriginCallback(origin, whitelist).Err?
    ensures ErrorHandler.HandleError(Some(ErrorHandler.ToThrown(OriginCallback(origin, whitelist).error, "Not allowed by CORS")))
            == ErrorHandler.Response(500, ErrorHandler.GenericMessage)
  {
  }

  /** Whenever the callback lets a request with an origin through, that origin is echoed. */
  lemma AllowedOriginIsEchoed(origin: Option<string>, originAllow: string)
    requires HasOrigin(origin) && OriginCallback(origin, Whitelist(originAllow)).Ok?
    ensures ExplicitHeaders(origin, Whitelist(originAllow)).allowOrigin == origin.value
  {
  }
}
