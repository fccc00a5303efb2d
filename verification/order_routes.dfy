/** `backend/src/routes/order.ts`: the order router's table, in declaration order. */
module OrderRoutes {
  import opened Wrappers
  import opened Http
  import opened Router
  import JsText

  const Table: seq<Route> := [
    Route(POST, [], [Auth, ValidateOrderBody], CreateOrder),
    Route(GET, [], [Auth, RequireAdmin], GetOrders),
    Route(GET, [Lit("all")], [Auth, RequireAdmin], GetOrders),
    Route(GET, [Lit("all"), Lit("me")], [Auth], GetOrdersCurrentUser),
    Route(GET, [Lit("me")], [Auth], GetOrdersCurrentUser),
    Route(GET, [Param("orderNumber")], [Auth, RequireAdmin], GetOrderByNumber),
    Route(GET, [Lit("me"), Param("orderNumber")], [Auth], GetOrderCurrentUserByNumber),
    Route(PATCH, [Param("orderNumber")], [Auth, RequireAdmin], UpdateOrder),
    Route(DELETE, [Param("id")], [Csrf, Auth, RequireAdmin], DeleteOrder)
  ]

  predicate IsRead(verb: Method)
  {
    verb == GET || verb == HEAD
  }

  /** Creating an order needs a signed-in user and a valid body, not the Admin role. */
  lemma CreateNeedsAuthOnly()
    ensures Lookup(Table, POST, []) == Some(Route(POST, [], [Auth, ValidateOrderBody], CreateOrder))
    ensures RequireAdmin !in Lookup(Table, POST, []).value.guards
  {
    LookupFindsFirst(Table, POST, [], 0);
  }

  /** The admin list answers both `/` and `/all`, behind `auth` and then the Admin guard. */
  lemma {:induction false} AdminListGated(verb: Method, path: Path)
    requires IsRead(verb)
    requires path == [] || (|path| == 1 && JsText.LowerAscii(path[0]) == "all")
    ensures Lookup(Table, verb, path).Some?
    ensures Lookup(Table, verb, path).value.handler == GetOrders
    ensures Lookup(Table, verb, path).value.guards == [Auth, RequireAdmin]
  {
    if path == [] {
      LookupFindsFirst(Table, verb, path, 1);
    } else {
      assert !PatternMatches(Table[1].pattern, path);
      LookupFindsFirst(Table, verb, path, 2);
    }
  }

  /**
   * `/me` is declared before `/:orderNumber`, so it reaches the current user's list with
   * `auth` alone, although the admin route would match it too.
   */
  lemma {:induction false} MeShadowsOrderNumber(verb: Method, segment: string)
    requires IsRead(verb) && JsText.LowerAscii(segment) == "me"
    ensures Handles(Table[5], verb, [segment])
    ensures Lookup(Table, verb, [segment]) == Some(Route(GET, [Lit("me")], [Auth], GetOrdersCurrentUser))
  {
    assert !SegmentMatches(Lit("all"), segment);
    assert !Handles(Table[2], verb, [segment]);
    LookupFindsFirst(Table, verb, [segment], 4);
  }

  /** Any other single segment is an order number, for admins only. */
  lemma {:induction false} OrderNumberIsAdminOnly(verb: Method, segment: string)
    requires IsRead(verb) && segment != ""
    requires JsText.LowerAscii(segment) != "me" && JsText.LowerAscii(segment) != "all"
    ensures Lookup(Table, verb, [segment]) == Some(Route(GET, [Param("orderNumber")], [Auth, RequireAdmin], GetOrderByNumber))
  {
    assert !Handles(Table[2], verb, [segment]) && !Handles(Table[4], verb, [segment]);
    LookupFindsFirst(Table, verb, [segment], 5);
  }

  /** `/me/:orderNumber` and `/all/me` need `auth` alone. */
  lemma {:induction false} OwnOrdersNeedAuthOnly(verb: Method, first: string, second: string)
    requires IsRead(verb) && second != ""
    ensures JsText.LowerAscii(first) == "me" ==>
              Lookup(Table, verb, [first, second]) == Some(Route(GET, [Lit("me"), Param("orderNumber")], [Auth], GetOrderCurrentUserByNumber))
    ensures JsText.LowerAscii(first) == "all" && JsText.LowerAscii(second) == "me" ==>
              Lookup(Table, verb, [first, second]) == Some(Route(GET, [Lit("all"), Lit("me")], [Auth], GetOrdersCurrentUser))
  {
    assert [first, second][1..] == [second];
    if JsText.LowerAscii(first) == "me" {
      assert !SegmentMatches(Lit("all"), first);
      assert !Handles(Table[3], verb, [first, second]);
      LookupFindsFirst(Table, verb, [first, second], 6);
    }
    if JsText.LowerAscii(first) == "all" && JsText.LowerAscii(second) == "me" {
      LookupFindsFirst(Table, verb, [first, second], 3);
    }
  }

  /** Changing an order's status needs `auth` and Admin, and no CSRF token. */
  lemma {:induction false} UpdateHasNoCsrf(segment: string)
    requires segment != ""
    ensures Lookup(Table, PATCH, [segment]) == Some(Route(PATCH, [Param("orderNumber")], [Auth, RequireAdmin], UpdateOrder))
    ensures Csrf !in Lookup(Table, PATCH, [segment]).value.guards
  {
    LookupFindsFirst(Table, PATCH, [segment], 7);
  }

  /** Deleting checks the CSRF token first, then `auth`, then Admin. */
  lemma {:induction false} DeleteChecksCsrfFirst(segment: string, verdicts: Verdicts)
    requires segment != ""
    ensures Lookup(Table, DELETE, [segment]) == Some(Route(DELETE, [Param("id")], [Csrf, Auth, RequireAdmin], DeleteOrder))
    ensures verdicts(Csrf).Some? ==> RunGuards([Csrf, Auth, RequireAdmin], verdicts) == verdicts(Csrf)
  {
    LookupFindsFirst(Table, DELETE, [segment], 8);
  }

  /** Every admin handler of the table sits behind `auth` and then the Admin guard. */
  lemma AdminHandlersGated()
    ensures TableGated(Table)
  {
    forall i | 0 <= i < |Table| && IsAdminHandler(Table[i].handler) ensures AdminGated(Table[i].guards) {
      if i == 8 {
        GatedAt(Table[i].guards, 1);
      } else {
        assert i in {1, 2, 5, 7};
        GatedAt(Table[i].guards, 0);
      }
    }
  }
}
