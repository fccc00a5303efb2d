/** `backend/src/routes/customers.ts`: the customer router's table, in declaration order. */
module CustomerRoutes {
  import opened Wrappers
  import opened Http
  import opened Router

  const Table: seq<Route> := [
    Route(GET, [], [Auth, RequireAdmin], GetCustomers),
    Route(GET, [Param("id")], [Auth, RequireAdmin], GetCustomerById),
    Route(PATCH, [Param("id")], [CsrfIfNotTest, Auth, RequireAdmin], UpdateCustomer),
    Route(DELETE, [Param("id")], [CsrfIfNotTest, Auth, RequireAdmin], DeleteCustomer)
  ]

  /** Reads need `auth` and Admin and no CSRF token; mutations check the token first. */
  lemma {:induction false} GuardChains(verb: Method, segment: string)
    requires (verb == GET || verb == HEAD) && segment != ""
    ensures Lookup(Table, verb, []) == Some(Table[0]) && Table[0].guards == [Auth, RequireAdmin]
    ensures Lookup(Table, verb, [segment]) == Some(Table[1]) && Table[1].guards == [Auth, RequireAdmin]
    ensures Lookup(Table, PATCH, [segment]) == Some(Table[2]) && Table[2].guards == [CsrfIfNotTest, Auth, RequireAdmin]
    ensures Lookup(Table, DELETE, [segment]) == Some(Table[3]) && Table[3].guards == [CsrfIfNotTest, Auth, RequireAdmin]
  {
    ListRoute(verb);
    ReadRoute(verb, segment);
    MutationRoutes(segment);
  }

  /** The customer list: the first route, behind `auth` and Admin. */
  lemma {:induction false} ListRoute(verb: Method)
    requires verb == GET || verb == HEAD
    ensures Lookup(Table, verb, []) == Some(Table[0]) && Table[0].guards == [Auth, RequireAdmin]
  {
    LookupFindsFirst(Table, verb, [], 0);
  }

  /** One customer by id: the second route, behind `auth` and Admin. */
  lemma {:induction false} ReadRoute(verb: Method, segment: string)
    requires (verb == GET || verb == HEAD) && segment != ""
    ensures Lookup(Table, verb, [segment]) == Some(Table[1]) && Table[1].guards == [Auth, RequireAdmin]
  {
    LookupFindsFirst(Table, verb, [segment], 1);
  }

  /** Updating and deleting a customer check the CSRF guard before `auth` and Admin. */
  lemma {:induction false} MutationRoutes(segment: string)
    requires segment != ""
    ensures Lookup(Table, PATCH, [segment]) == Some(Table[2]) && Table[2].guards == [CsrfIfNotTest, Auth, RequireAdmin]
    ensures Lookup(Table, DELETE, [segment]) == Some(Table[3]) && Table[3].guards == [CsrfIfNotTest, Auth, RequireAdmin]
  {
    LookupFindsFirst(Table, PATCH, [segment], 2);
    LookupFindsFirst(Table, DELETE, [segment], 3);
  }

  lemma AdminHandlersGated()
    ensures TableGated(Table)
  {
    forall i | 0 <= i < |Table| && IsAdminHandler(Table[i].handler) ensures AdminGated(Table[i].guards) {
      GatedAt(Table[i].guards, if i < 2 then 0 else 1);
    }
  }
}
