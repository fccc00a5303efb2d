/** `backend/src/routes/product.ts`: the product router's table, in declaration order. */
module ProductRoutes {
  import opened Wrappers
  import opened Http
  import opened Router

  const Table: seq<Route> := [
    Route(GET, [], [], GetProducts),
    Route(POST, [], [Auth, RequireAdmin, ValidateProductBody], CreateProduct),
    Route(PATCH, [Param("productId")], [Auth, RequireAdmin, ValidateObjId, ValidateProductUpdateBody], UpdateProduct),
    Route(DELETE, [Param("productId")], [Auth, RequireAdmin, ValidateObjId], DeleteProduct)
  ]

  /** The product list is public. */
  lemma ListIsPublic(verb: Method)
    requires verb == GET || verb == HEAD
    ensures Lookup(Table, verb, []) == Some(Route(GET, [], [], GetProducts))
  {
    LookupFindsFirst(Table, verb, [], 0);
  }

  /**
   * Every mutation runs `auth`, then Admin, then (with an id) the id check, then the body
   * validator, and none checks a CSRF token.
   */
  lemma {:induction false} MutationsAreAdminOnly(segment: string)
    requires segment != ""
    ensures Lookup(Table, POST, []) == Some(Table[1])
    ensures Table[1].guards == [Auth, RequireAdmin, ValidateProductBody]
    ensures Lookup(Table, PATCH, [segment]) == Some(Table[2])
    ensures Table[2].guards == [Auth, RequireAdmin, ValidateObjId, ValidateProductUpdateBody]
    ensures Lookup(Table, DELETE, [segment]) == Some(Table[3])
    ensures Table[3].guards == [Auth, RequireAdmin, ValidateObjId]
    ensures forall r :: r in Table ==> Csrf !in r.guards && CsrfIfNotTest !in r.guards
  {
    LookupFindsFirst(Table, POST, [], 1);
    IdRoutes(segment);
    NoCsrfGuard();
  }

  /** Updating and deleting a product reach the id routes. */
  lemma {:induction false} IdRoutes(segment: string)
    requires segment != ""
    ensures Lookup(Table, PATCH, [segment]) == Some(Table[2])
    ensures Lookup(Table, DELETE, [segment]) == Some(Table[3])
  {
    LookupFindsFirst(Table, PATCH, [segment], 2);
    LookupFindsFirst(Table, DELETE, [segment], 3);
  }

  /** No route of the product router checks a CSRF token. */
  lemma NoCsrfGuard()
    ensures forall r :: r in Table ==> Csrf !in r.guards && CsrfIfNotTest !in r.guards
  {
  }

  lemma AdminHandlersGated()
    ensures TableGated(Table)
  {
    forall i | 0 <= i < |Table| && IsAdminHandler(Table[i].handler) ensures AdminGated(Table[i].guards) {
      GatedAt(Table[i].guards, 0);
    }
  }
}
