/**
 * The request path of `backend/src/app.ts` up to the routers: the CORS origin check,
 * the preflight answer, the health check, static files, and the routers mounted at both
 * `/api` and `/`.
 */
module App {
  import opened Wrappers
  import opened Errors
  import opened Http
  import opened Router
  import JsText
  import Cors
  import ErrorHandler
  import IndexRoutes

  /**
   * What dispatch looks at. `staticFile` says whether the static middleware finds a file
   * under the public directory for this path, which is a file-system question.
   */
  datatype AppRequest = AppRequest(verb: Method, origin: Option<string>, path: Path, staticFile: bool)

  datatype AppAnswer =
    | Refused(response: ErrorHandler.Response)  // the CORS callback's error, through the error handler
    | Preflight                                  // OPTIONS, answered 204 by the `cors` middleware
    | Pong                                       // `/__ping`
    | StaticFile
    | Routed(plan: Plan)

  /** The error text of the top-level router's fallback ("route not found"). */
  const RouteNotFoundMessage: string := "Маршрут не найден"

  /** The mount at `['/api', '/']`: an `/api` first segment is stripped, any other path passes unchanged. */
  function StripApi(path: Path): (r: Path)
    ensures |path| >= 1 && JsText.LowerAscii(path[0]) == "api" ==> r == path[1..]
    ensures !(|path| >= 1 && JsText.LowerAscii(path[0]) == "api") ==> r == path
  {
    if |path| >= 1 && JsText.LowerAscii(path[0]) == "api" then path[1..] else path
  }

  predicate IsPing(verb: Method, path: Path)
  {
    (verb == GET || verb == HEAD) && |path| == 1 && JsText.LowerAscii(path[0]) == "__ping"
  }

  /** The middleware stack in order, stopping at the first layer that answers. */
  function Dispatch(req: AppRequest, whitelist: seq<string>): (r: AppAnswer)
    ensures r.Refused? <==> Cors.OriginCallback(req.origin, whitelist).Err?
    ensures r.Preflight? <==> !r.Refused? && req.verb == OPTIONS
    ensures r.Pong? <==> !r.Refused? && req.verb != OPTIONS && IsPing(req.verb, req.path)
    ensures r.StaticFile? <==> !r.Refused? && req.verb != OPTIONS && !IsPing(req.verb, req.path) && req.staticFile
    ensures r.Routed? <==> !r.Refused? && req.verb != OPTIONS && !IsPing(req.verb, req.path) && !req.staticFile
    ensures r.Routed? ==> req.verb != OPTIONS && !req.staticFile && r.plan == IndexRoutes.Resolve(req.verb, StripApi(req.path))
  {
    match Cors.OriginCallback(req.origin, whitelist)
    case Err(e) => Refused(ErrorHandler.HandleError(Some(ErrorHandler.ToThrown(e, "Not allowed by CORS"))))
    case Ok(_) =>
      if req.verb == OPTIONS then Preflight
      else if IsPing(req.verb, req.path) then Pong
      else if req.staticFile then StaticFile
      else Routed(IndexRoutes.Resolve(req.verb, StripApi(req.path)))
  }

  /** A request from an origin outside the list reaches no handler and gets a 500 with the generic text. */
  lemma RefusedOriginGetsServerError(req: AppRequest, whitelist: seq<string>)
    requires Cors.HasOrigin(req.origin) && req.origin.value !in whitelist
    ensures Dispatch(req, whitelist) == Refused(ErrorHandler.Response(500, ErrorHandler.GenericMessage))
  {
    Cors.RefusedOriginIsServerError(req.origin, whitelist);
  }

  /**
   * The `/api` prefix is transparent: a request under `/api` is routed exactly as the
   * same request without it, unless the rest is the health check, which only exists
   * outside `/api`, or itself starts with `api`.
   */
  lemma {:induction false} ApiPrefixTransparent(req: AppRequest, whitelist: seq<string>, rest: Path)
    requires |req.path| >= 1 && JsText.LowerAscii(req.path[0]) == "api" && req.path[1..] == rest
    requires !req.staticFile && !IsPing(req.verb, rest)
    requires !(|rest| >= 1 && JsText.LowerAscii(rest[0]) == "api")
    ensures Dispatch(req, whitelist) == Dispatch(req.(path := rest), whitelist)
  {
    assert !IsPing(req.verb, req.path) by {
      assert "api" != "__ping";
    }
  }

  /**
   * Paths that only exist outside `/api`: `/__ping` is the health check for GET and HEAD
   * from any allowed origin, while `/api/__ping` is no health check and, unless a static
   * file answers it, ends in not-found for every method.
   */
  lemma {:induction false} PingOnlyAtRoot(req: AppRequest, whitelist: seq<string>, api: string, ping: string)
    requires Cors.OriginCallback(req.origin, whitelist).Ok? && req.verb != OPTIONS
    requires JsText.LowerAscii(api) == "api" && JsText.LowerAscii(ping) == "__ping"
    ensures Dispatch(req.(path := [ping]), whitelist) == Pong <==> req.verb == GET || req.verb == HEAD
    ensures !req.staticFile ==> Dispatch(req.(path := [api, ping]), whitelist) == Routed(Plan([], NotFoundFallback))
  {
    assert [api, ping][1..] == [ping];
    forall k | 0 <= k < |IndexRoutes.Mounts| ensures !IndexRoutes.MountMatches(IndexRoutes.Mounts[k], [ping]) {
      assert k in {0, 1, 2, 3, 4, 5, 6};
    }
    IndexRoutes.UnknownPrefixNotFound(req.verb, [ping]);
  }

  /** The response the fallback produces: 404 with its own text. */
  lemma NotFoundResponse()
    ensures ErrorHandler.HandleError(Some(ErrorHandler.ToThrown(NotFound, RouteNotFoundMessage)))
            == ErrorHandler.Response(404, RouteNotFoundMessage)
  {
  }
}
