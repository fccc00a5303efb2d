/**
 * `backend/src/routes/index.ts`: the top-level router. Each sub-router is mounted under a
 * first path segment, some behind guards; a mount's guards run as soon as the prefix
 * matches, even when no route of the sub-router then matches, and a request no mount
 * answers ends in NotFound. The upload router (`backend/src/routes/upload.ts`) is a
 * single route and is written out here.
 */
module IndexRoutes {
  import opened Wrappers
  import opened Http
  import opened Router
  import JsText
  import OrderRoutes
  import AuthRoutes
  import ProductRoutes
  import CustomerRoutes

  datatype Mount = Mount(prefix: string, guards: seq<Guard>, table: seq<Route>)

  const UploadTable: seq<Route> := [Route(POST, [], [ParseUpload], UploadFile)]

  const Mounts: seq<Mount> := [
    Mount("auth", [], AuthRoutes.Table),
    Mount("product", [], ProductRoutes.Table),
    Mount("orders", [], OrderRoutes.Table),
    Mount("order", [], OrderRoutes.Table),
    Mount("upload", [], UploadTable),
    Mount("customers", [Auth, RequireAdmin], CustomerRoutes.Table),
    Mount("users", [Auth, RequireAdmin], CustomerRoutes.Table)
  ]

  predicate MountMatches(m: Mount, path: Path)
  {
    |path| >= 1 && JsText.LowerAscii(path[0]) == m.prefix
  }

  /** Handles a route of the mount the path enters. */
  predicate MountAnswers(m: Mount, verb: Method, path: Path)
  {
    MountMatches(m, path) && Lookup(m.table, verb, path[1..]).Some?
  }

  /**
   * Dispatch from mount `i` on, `ran` being the guards of the mounts already entered: the
   * first mount whose prefix matches and whose router has a route decides; the guards of
   * every mount entered on the way run first.
   */
  function ResolveFrom(mounts: seq<Mount>, verb: Method, path: Path, i: nat, ran: seq<Guard>): (r: Plan)
    requires i <= |mounts|
    decreases |mounts| - i
    ensures |ran| <= |r.guards| && r.guards[..|ran|] == ran
    ensures r.target.NotFoundFallback? <==> forall k :: i <= k < |mounts| ==> !MountAnswers(mounts[k], verb, path)
  {
    if i == |mounts| then Plan(ran, NotFoundFallback)
    else if MountMatches(mounts[i], path) then
      var chain := ran + mounts[i].guards;
      match Lookup(mounts[i].table, verb, path[1..])
      case Some(route) =>
        assert (chain + route.guards)[..|ran|] == ran;
        Plan(chain + route.guards, Handle(route.handler))
      case None =>
        var rest := ResolveFrom(mounts, verb, path, i + 1, chain);
        assert rest.guards[..|ran|] == rest.guards[..|chain|][..|ran|];
        rest
    else ResolveFrom(mounts, verb, path, i + 1, ran)
  }

  /** The plan for a request reaching the top-level router. */
  function Resolve(verb: Method, path: Path): Plan
  {
    ResolveFrom(Mounts, verb, path, 0, [])
  }

  /** When no mount from `i` on matches the prefix, the request ends in NotFound with the guards already run. */
  lemma {:induction false} NoMountLeft(mounts: seq<Mount>, verb: Method, path: Path, i: nat, ran: seq<Guard>)
    requires i <= |mounts|
    requires forall k :: i <= k < |mounts| ==> !MountMatches(mounts[k], path)
    ensures ResolveFrom(mounts, verb, path, i, ran) == Plan(ran, NotFoundFallback)
    decreases |mounts| - i
  {
    if i < |mounts| {
      NoMountLeft(mounts, verb, path, i + 1, ran);
    }
  }

  /** A mount whose prefix matches, reached with guards `ran`, decides the request (or passes it on). */
  lemma {:induction false} EnterMount(mounts: seq<Mount>, verb: Method, path: Path, i: nat, ran: seq<Guard>)
    requires i < |mounts| && MountMatches(mounts[i], path)
    requires forall k :: i < k < |mounts| ==> !MountMatches(mounts[k], path)
    ensures ResolveFrom(mounts, verb, path, i, ran) ==
              match Lookup(mounts[i].table, verb, path[1..])
              case Some(route) => Plan(ran + mounts[i].guards + route.guards, Handle(route.handler))
              case None => Plan(ran + mounts[i].guards, NotFoundFallback)
  {
    NoMountLeft(mounts, verb, path, i + 1, ran + mounts[i].guards);
  }

  /** Mounts before `i` whose prefix does not match are skipped. */
  lemma {:induction false} SkipMounts(mounts: seq<Mount>, verb: Method, path: Path, i: nat)
    requires i <= |mounts|
    requires forall k :: 0 <= k < i ==> !MountMatches(mounts[k], path)
    ensures ResolveFrom(mounts, verb, path, 0, []) == ResolveFrom(mounts, verb, path, i, [])
  {
    var k := i;
    while k > 0
      invariant 0 <= k <= i
      invariant ResolveFrom(mounts, verb, path, k, []) == ResolveFrom(mounts, verb, path, i, [])
    {
      k := k - 1;
    }
  }

  /** The plan for a path whose first segment enters mount `i` and no other. */
  lemma {:induction false} ResolveThrough(verb: Method, path: Path, i: nat)
    requires i < |Mounts| && MountMatches(Mounts[i], path)
    requires forall k :: 0 <= k < |Mounts| && k != i ==> !MountMatches(Mounts[k], path)
    ensures Resolve(verb, path) ==
              match Lookup(Mounts[i].table, verb, path[1..])
              case Some(route) => Plan(Mounts[i].guards + route.guards, Handle(route.handler))
              case None => Plan(Mounts[i].guards, NotFoundFallback)
  {
    SkipMounts(Mounts, verb, path, i);
    EnterMount(Mounts, verb, path, i, []);
    assert [] + Mounts[i].guards == Mounts[i].guards;
  }

  /** The prefixes are pairwise different, so a first segment enters at most one mount. */
  lemma {:induction false} AtMostOneMount(path: Path, i: nat, k: nat)
    requires i < |Mounts| && k < |Mounts| && MountMatches(Mounts[i], path) && MountMatches(Mounts[k], path)
    ensures i == k
  {
  }

  /** `/orders` and `/order` mount the same router: every request resolves identically under either. */
  lemma {:induction false} OrderAliasesAgree(verb: Method, s1: string, s2: string, rest: Path)
    requires JsText.LowerAscii(s1) == "orders" && JsText.LowerAscii(s2) == "order"
    ensures Resolve(verb, [s1] + rest) == Resolve(verb, [s2] + rest)
  {
    assert ([s1] + rest)[1..] == rest && ([s2] + rest)[1..] == rest;
    forall k | 0 <= k < |Mounts| && k != 2 ensures !MountMatches(Mounts[k], [s1] + rest) {
      AtMostOneMountPrefix([s1] + rest, 2, k);
    }
    forall k | 0 <= k < |Mounts| && k != 3 ensures !MountMatches(Mounts[k], [s2] + rest) {
      AtMostOneMountPrefix([s2] + rest, 3, k);
    }
    ResolveThrough(verb, [s1] + rest, 2);
    ResolveThrough(verb, [s2] + rest, 3);
  }

  /** `/customers` and `/users` mount the same router behind the same guards. */
  lemma {:induction false} CustomerAliasesAgree(verb: Method, s1: string, s2: string, rest: Path)
    requires JsText.LowerAscii(s1) == "customers" && JsText.LowerAscii(s2) == "users"
    ensures Resolve(verb, [s1] + rest) == Resolve(verb, [s2] + rest)
  {
    assert ([s1] + rest)[1..] == rest && ([s2] + rest)[1..] == rest;
    forall k | 0 <= k < |Mounts| && k != 5 ensures !MountMatches(Mounts[k], [s1] + rest) {
      AtMostOneMountPrefix([s1] + rest, 5, k);
    }
    forall k | 0 <= k < |Mounts| && k != 6 ensures !MountMatches(Mounts[k], [s2] + rest) {
      AtMostOneMountPrefix([s2] + rest, 6, k);
    }
    ResolveThrough(verb, [s1] + rest, 5);
    ResolveThrough(verb, [s2] + rest, 6);
  }

  /** A path entering mount `i` enters no other. */
  lemma {:induction false} AtMostOneMountPrefix(path: Path, i: nat, k: nat)
    requires i < |Mounts| && k < |Mounts| && k != i && MountMatches(Mounts[i], path)
    ensures !MountMatches(Mounts[k], path)
  {
    if MountMatches(Mounts[k], path) {
      AtMostOneMount(path, i, k);
    }
  }

  /**
   * Through `/customers` the `auth`+Admin chain runs twice, once for the mount and once for
   * the route; the second run changes no verdict.
   */
  lemma {:induction false} CustomerListChainRunsTwice(verb: Method, s: string, verdicts: Verdicts)
    requires (verb == GET || verb == HEAD) && JsText.LowerAscii(s) == "customers"
    ensures Resolve(verb, [s]) == Plan([Auth, RequireAdmin, Auth, RequireAdmin], Handle(GetCustomers))
    ensures RunGuards(Resolve(verb, [s]).guards, verdicts) == RunGuards([Auth, RequireAdmin], verdicts)
  {
    assert Resolve(verb, [s]) == Plan([Auth, RequireAdmin, Auth, RequireAdmin], Handle(GetCustomers)) by {
      forall k | 0 <= k < |Mounts| && k != 5 ensures !MountMatches(Mounts[k], [s]) {
        AtMostOneMountPrefix([s], 5, k);
      }
      ResolveThrough(verb, [s], 5);
      CustomerRoutes.ListRoute(verb);
      assert [s][1..] == [];
      assert [Auth, RequireAdmin] + [Auth, RequireAdmin] == [Auth, RequireAdmin, Auth, RequireAdmin];
    }
    RepeatedGuardsHarmless([Auth, RequireAdmin], [], verdicts);
    assert [Auth, RequireAdmin] + [Auth, RequireAdmin] + [] == [Auth, RequireAdmin, Auth, RequireAdmin];
    assert [Auth, RequireAdmin] + [] == [Auth, RequireAdmin];
  }

  /** `/auth` and `/upload` add no guard of their own: the route's chain is the whole chain. */
  lemma {:induction false} UnguardedMounts(verb: Method, s: string, rest: Path)
    requires JsText.LowerAscii(s) == "auth" || JsText.LowerAscii(s) == "upload"
    ensures var m := if JsText.LowerAscii(s) == "auth" then Mounts[0] else Mounts[4];
            Resolve(verb, [s] + rest) ==
              match Lookup(m.table, verb, rest)
              case Some(route) => Plan(route.guards, Handle(route.handler))
              case None => Plan([], NotFoundFallback)
  {
    var i := if JsText.LowerAscii(s) == "auth" then 0 else 4;
    assert ([s] + rest)[1..] == rest;
    forall k | 0 <= k < |Mounts| && k != i ensures !MountMatches(Mounts[k], [s] + rest) {
      AtMostOneMountPrefix([s] + rest, i, k);
    }
    ResolveThrough(verb, [s] + rest, i);
  }

  /** Uploading needs no sign-in: the only guard is the multipart parser. */
  lemma {:induction false} UploadIsPublic(s: string)
    requires JsText.LowerAscii(s) == "upload"
    ensures Resolve(POST, [s]) == Plan([ParseUpload], Handle(UploadFile))
  {
    UnguardedMounts(POST, s, []);
    assert [s] + [] == [s];
    LookupFindsFirst(UploadTable, POST, [], 0);
  }

  /** A request whose first segment names no mount, or the bare root, ends in NotFound unguarded. */
  lemma {:induction false} UnknownPrefixNotFound(verb: Method, path: Path)
    requires forall k :: 0 <= k < |Mounts| ==> !MountMatches(Mounts[k], path)
    ensures Resolve(verb, path) == Plan([], NotFoundFallback)
  {
    NoMountLeft(Mounts, verb, path, 0, []);
  }

  /**
   * Under `/customers` a path no customer route has still runs the mount's guards first:
   * such a request is refused by `auth` or Admin before it can be NotFound.
   */
  lemma {:induction false} GuardsRunBeforeNotFound(verb: Method, s: string, rest: Path)
    requires JsText.LowerAscii(s) == "customers" && |rest| >= 2
    ensures Resolve(verb, [s] + rest) == Plan([Auth, RequireAdmin], NotFoundFallback)
  {
    assert ([s] + rest)[1..] == rest;
    forall k | 0 <= k < |Mounts| && k != 5 ensures !MountMatches(Mounts[k], [s] + rest) {
      AtMostOneMountPrefix([s] + rest, 5, k);
    }
    ResolveThrough(verb, [s] + rest, 5);
    assert forall j :: 0 <= j < |CustomerRoutes.Table| ==> |CustomerRoutes.Table[j].pattern| <= 1;
  }

  /** Every handler meant for administrators is reached only through `auth` and then Admin. */
  lemma {:induction false} AdminGating(verb: Method, path: Path)
    ensures Resolve(verb, path).target.Handle? && IsAdminHandler(Resolve(verb, path).target.handler) ==>
              AdminGated(Resolve(verb, path).guards)
  {
    MountsGated();
    ResolveFromGated(Mounts, verb, path, 0, []);
  }

  lemma MountsGated()
    ensures TablesGated(Mounts)
  {
    AuthTableHasNoAdminRoute();
    ProductRoutes.AdminHandlersGated();
    OrderRoutes.AdminHandlersGated();
    UploadTableHasNoAdminRoute();
    CustomerRoutes.AdminHandlersGated();
    assert Mounts[0].table == AuthRoutes.Table && Mounts[1].table == ProductRoutes.Table;
    assert Mounts[2].table == Mounts[3].table == OrderRoutes.Table && Mounts[4].table == UploadTable;
    assert Mounts[5].table == Mounts[6].table == CustomerRoutes.Table;
  }

  lemma AuthTableHasNoAdminRoute()
    ensures TableGated(AuthRoutes.Table)
  {
    forall i | 0 <= i < |AuthRoutes.Table| ensures !IsAdminHandler(AuthRoutes.Table[i].handler) {
      assert AuthRoutes.Table[i].handler in {GetCurrentUser, GetCurrentUserRoles, UpdateCurrentUser, Login, Register, RefreshAccessToken, Logout};
    }
  }

  lemma UploadTableHasNoAdminRoute()
    ensures TableGated(UploadTable)
  {
  }

  /** Every mount's admin routes are gated in the mount's own table. */
  predicate TablesGated(mounts: seq<Mount>)
  {
    forall k :: 0 <= k < |mounts| ==> TableGated(mounts[k].table)
  }

  lemma {:induction false} ResolveFromGated(mounts: seq<Mount>, verb: Method, path: Path, i: nat, ran: seq<Guard>)
    requires i <= |mounts| && TablesGated(mounts)
    ensures var r := ResolveFrom(mounts, verb, path, i, ran);
            r.target.Handle? && IsAdminHandler(r.target.handler) ==> AdminGated(r.guards)
    decreases |mounts| - i
  {
    if i < |mounts| {
      if MountMatches(mounts[i], path) {
        var chain := ran + mounts[i].guards;
        match Lookup(mounts[i].table, verb, path[1..])
        case Some(route) =>
          if IsAdminHandler(route.handler) {
            var j :| 0 <= j < |mounts[i].table| && mounts[i].table[j] == route;
            AdminGatedExtends(chain, route.guards, []);
            assert chain + route.guards + [] == chain + route.guards;
          }
        case None =>
          ResolveFromGated(mounts, verb, path, i + 1, chain);
      } else {
        ResolveFromGated(mounts, verb, path, i + 1, ran);
      }
    }
  }
}
