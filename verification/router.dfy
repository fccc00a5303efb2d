/**
 * The part of Express's routing the route files rely on: an ordered table of
 * (method, pattern, guards, handler), first match wins, literal segments compare
 * without regard to ASCII letter case, a GET route also answers HEAD, and a guard
 * chain stops at the first guard that fails.
 *
 * A request path is given as its list of non-empty segments; splitting the URL,
 * percent-decoding and the optional trailing slash are not modelled.
 */
module Router {
  import opened Wrappers
  import opened Errors
  import opened Http
  import JsText

  /** A pattern segment: a literal (written in lower case in every table) or a `:param`. */
  datatype Segment = Lit(text: string) | Param(name: string)

  /**
   * The middlewares that can stand in front of a handler. `Auth` and `RequireAdmin` are
   * `auth` and `roleGuardMiddleware(Role.Admin)`, `Csrf` is `doubleCsrfProtection`,
   * `CsrfIfNotTest` is the guard the customer routes name, `ParseUpload` is the
   * multipart parser of the upload route; the others are the celebrate validators.
   */
  datatype Guard =
    | Auth
    | RequireAdmin
    | Csrf
    | CsrfIfNotTest
    | ValidateOrderBody
    | ValidateProductBody
    | ValidateProductUpdateBody
    | ValidateObjId
    | ParseUpload

  datatype Handler =
    | CreateOrder | GetOrders | GetOrdersCurrentUser | GetOrderByNumber
    | GetOrderCurrentUserByNumber | UpdateOrder | DeleteOrder
    | GetCurrentUser | GetCurrentUserRoles | UpdateCurrentUser
    | Login | Register | RefreshAccessToken | Logout
    | GetProducts | CreateProduct | UpdateProduct | DeleteProduct
    | GetCustomers | GetCustomerById | UpdateCustomer | DeleteCustomer
    | UploadFile

  datatype Route = Route(verb: Method, pattern: seq<Segment>, guards: seq<Guard>, handler: Handler)

  type Path = seq<string>

  predicate SegmentMatches(pattern: Segment, segment: string)
  {
    match pattern
    case Lit(text) => JsText.LowerAscii(segment) == text
    case Param(_) => segment != ""
  }

  /** The pattern has as many segments as the path and each of them matches. */
  predicate PatternMatches(pattern: seq<Segment>, path: Path)
    ensures PatternMatches(pattern, path) ==> |pattern| == |path|
  {
    if |pattern| == 0 then |path| == 0
    else |path| > 0 && SegmentMatches(pattern[0], path[0]) && PatternMatches(pattern[1..], path[1..])
  }

  /** A route declared for `declared` handles `requested`; HEAD falls back to GET. */
  predicate MethodMatches(declared: Method, requested: Method)
  {
    declared == requested || (requested == HEAD && declared == GET)
  }

  predicate Handles(route: Route, verb: Method, path: Path)
  {
    MethodMatches(route.verb, verb) && PatternMatches(route.pattern, path)
  }

  /** The position of the first route from `i` on that handles the request. */
  function FirstMatch(table: seq<Route>, verb: Method, path: Path, i: nat): (r: Option<nat>)
    requires i <= |table|
    decreases |table| - i
    ensures r.Some? ==> i <= r.value < |table| && Handles(table[r.value], verb, path)
    ensures r.Some? ==> forall j :: i <= j < r.value ==> !Handles(table[j], verb, path)
    ensures r.None? ==> forall j :: i <= j < |table| ==> !Handles(table[j], verb, path)
  {
    if i == |table| then None
    else if Handles(table[i], verb, path) then Some(i)
    else FirstMatch(table, verb, path, i + 1)
  }

  /** The route a router dispatches to: the first one that handles the request. */
  function Lookup(table: seq<Route>, verb: Method, path: Path): (r: Option<Route>)
    ensures r.Some? ==> r.value in table && Handles(r.value, verb, path)
    ensures r.None? <==> forall j :: 0 <= j < |table| ==> !Handles(table[j], verb, path)
  {
    match FirstMatch(table, verb, path, 0)
    case Some(i) => Some(table[i])
    case None => None
  }

  /** First match: a route preceded only by routes that do not handle the request is chosen. */
  lemma {:induction false} LookupFindsFirst(table: seq<Route>, verb: Method, path: Path, k: nat)
    requires k < |table| && Handles(table[k], verb, path)
    requires forall j :: 0 <= j < k ==> !Handles(table[j], verb, path)
    ensures Lookup(table, verb, path) == Some(table[k])
  {
    var found := FirstMatch(table, verb, path, 0);
    assert found.Some?;
  }

  /** Where a request ends up once routing is done. */
  datatype Target = Handle(handler: Handler) | NotFoundFallback

  /** The guards a request passes through, in order, and where it ends. */
  datatype Plan = Plan(guards: seq<Guard>, target: Target)

  /**
   * The verdict each guard gives on the request at hand: `None` lets it through, `Some(e)`
   * passes `e` to the error handler. Guards are deterministic in the request.
   */
  type Verdicts = Guard -> Option<ErrorKind>

  /** What running a plan produces. */
  datatype Outcome = Rejected(error: ErrorKind) | Reached(handler: Handler) | RouteNotFound

  /** The position of the first guard from `i` on that refuses the request. */
  function FirstFailure(guards: seq<Guard>, verdicts: Verdicts, i: nat): (r: Option<nat>)
    requires i <= |guards|
    decreases |guards| - i
    ensures r.Some? ==> i <= r.value < |guards| && verdicts(guards[r.value]).Some?
    ensures r.Some? ==> forall j :: i <= j < r.value ==> verdicts(guards[j]).None?
    ensures r.None? ==> forall j :: i <= j < |guards| ==> verdicts(guards[j]).None?
  {
    if i == |guards| then None
    else if verdicts(guards[i]).Some? then Some(i)
    else FirstFailure(guards, verdicts, i + 1)
  }

  /** The verdict of a guard chain: the first failing guard's error, if any. */
  function RunGuards(guards: seq<Guard>, verdicts: Verdicts): (r: Option<ErrorKind>)
    ensures r.None? <==> forall i :: 0 <= i < |guards| ==> verdicts(guards[i]).None?
    ensures forall i :: (0 <= i < |guards| && verdicts(guards[i]).Some? &&
                         forall j :: 0 <= j < i ==> verdicts(guards[j]).None?) ==> r == verdicts(guards[i])
  {
    match FirstFailure(guards, verdicts, 0)
    case Some(k) => verdicts(guards[k])
    case None => None
  }

  function RunPlan(plan: Plan, verdicts: Verdicts): (r: Outcome)
    ensures r.Rejected? <==> RunGuards(plan.guards, verdicts).Some?
    ensures r.Reached? ==> plan.target == Handle(r.handler)
    ensures r.RouteNotFound? <==> RunGuards(plan.guards, verdicts).None? && plan.target.NotFoundFallback?
  {
    match RunGuards(plan.guards, verdicts)
    case Some(e) => Rejected(e)
    case None =>
      match plan.target
      case Handle(h) => Reached(h)
      case NotFoundFallback => RouteNotFound
  }

  /** A chain split in two: the first half's failure decides, else the second half's verdict. */
  lemma {:induction false} RunGuardsAppend(a: seq<Guard>, b: seq<Guard>, verdicts: Verdicts)
    ensures RunGuards(a + b, verdicts) == if RunGuards(a, verdicts).Some? then RunGuards(a, verdicts) else RunGuards(b, verdicts)
  {
    if |a| > 0 {
      assert (a + b)[0] == a[0];
      assert (a + b)[1..] == a[1..] + b;
      RunGuardsAppend(a[1..], b, verdicts);
    } else {
      assert a + b == b;
    }
  }

  /** Running a guard chain twice in a row gives the verdict of running it once. */
  lemma {:induction false} RepeatedGuardsHarmless(g: seq<Guard>, rest: seq<Guard>, verdicts: Verdicts)
    ensures RunGuards(g + g + rest, verdicts) == RunGuards(g + rest, verdicts)
  {
    RunGuardsAppend(g, g + rest, verdicts);
    RunGuardsAppend(g, rest, verdicts);
    assert g + g + rest == g + (g + rest);
  }

  /** The position of `x` in `s`, if it occurs. */
  function IndexOf(s: seq<Guard>, x: Guard): (r: Option<nat>)
    ensures r.Some? ==> r.value < |s| && s[r.value] == x && x !in s[..r.value]
    ensures r.None? <==> x !in s
  {
    if |s| == 0 then None
    else if s[0] == x then Some(0)
    else
      match IndexOf(s[1..], x)
      case None => None
      case Some(k) =>
        assert s[..k + 1] == [s[0]] + s[1..][..k];
        Some(k + 1)
  }

  /** `a` runs before `b` in the chain: both occur and the first `a` precedes the first `b`. */
  predicate RunsBefore(guards: seq<Guard>, a: Guard, b: Guard)
  {
    IndexOf(guards, a).Some? && IndexOf(guards, b).Some? && IndexOf(guards, a).value < IndexOf(guards, b).value
  }

  /**
   * A chain where `a` runs before `b` never lets a request that `a` refuses reach `b`: the
   * chain fails with the verdict of `a` or of a guard in front of it.
   */
  lemma {:induction false} EarlierGuardDecides(guards: seq<Guard>, a: Guard, b: Guard, verdicts: Verdicts)
    requires RunsBefore(guards, a, b) && verdicts(a).Some?
    ensures RunGuards(guards, verdicts).Some?
    ensures exists j :: 0 <= j <= IndexOf(guards, a).value && RunGuards(guards, verdicts) == verdicts(guards[j])
  {
    var k := IndexOf(guards, a).value;
    var found := FirstFailure(guards, verdicts, 0);
    assert verdicts(guards[k]).Some?;
    assert found.Some? && found.value <= k;
    assert RunGuards(guards, verdicts) == verdicts(guards[found.value]);
  }

  /** The handlers the routes mean for administrators only. */
  predicate IsAdminHandler(h: Handler)
  {
    h in {GetOrders, GetOrderByNumber, UpdateOrder, DeleteOrder,
          CreateProduct, UpdateProduct, DeleteProduct,
          GetCustomers, GetCustomerById, UpdateCustomer, DeleteCustomer}
  }

  /** `auth` runs, and later in the chain the Admin guard. */
  predicate AdminGated(guards: seq<Guard>)
  {
    exists i, j :: 0 <= i < j < |guards| && guards[i] == Auth && guards[j] == RequireAdmin
  }

  /** Every admin route of the table is gated. */
  predicate TableGated(table: seq<Route>)
  {
    forall i :: 0 <= i < |table| && IsAdminHandler(table[i].handler) ==> AdminGated(table[i].guards)
  }

  /** `auth` directly followed by the Admin guard gates the chain. */
  lemma GatedAt(guards: seq<Guard>, i: nat)
    requires i + 1 < |guards| && guards[i] == Auth && guards[i + 1] == RequireAdmin
    ensures AdminGated(guards)
  {
  }

  /** Gating survives guards added in front of or behind the chain. */
  lemma {:induction false} AdminGatedExtends(front: seq<Guard>, guards: seq<Guard>, back: seq<Guard>)
    requires AdminGated(guards)
    ensures AdminGated(front + guards + back)
  {
    var i, j :| 0 <= i < j < |guards| && guards[i] == Auth && guards[j] == RequireAdmin;
    var all := front + guards + back;
    assert all[|front| + i] == Auth && all[|front| + j] == RequireAdmin;
  }

  /** A gated chain refuses every request the Admin guard refuses, whatever the other guards say. */
  lemma {:induction false} GatedRefusesNonAdmin(guards: seq<Guard>, verdicts: Verdicts)
    requires AdminGated(guards) && verdicts(RequireAdmin).Some?
    ensures RunGuards(guards, verdicts).Some?
  {
    var i, j :| 0 <= i < j < |guards| && guards[i] == Auth && guards[j] == RequireAdmin;
    assert verdicts(guards[j]).Some?;
  }
}
