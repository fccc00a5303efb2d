/** `backend/src/routes/auth.ts`: the auth router's table, in declaration order. */
module AuthRoutes {
  import opened Wrappers
  import opened Http
  import opened Router
  import JsText

  const Table: seq<Route> := [
    Route(GET, [Lit("user")], [Auth], GetCurrentUser),
    Route(GET, [Lit("user"), Lit("roles")], [Auth], GetCurrentUserRoles),
    Route(PATCH, [Lit("me")], [Auth], UpdateCurrentUser),
    Route(POST, [Lit("login")], [], Login),
    Route(POST, [Lit("register")], [], Register),
    Route(POST, [Lit("token")], [], RefreshAccessToken),
    Route(POST, [Lit("logout")], [], Logout),
    Route(GET, [Lit("token")], [], RefreshAccessToken),
    Route(GET, [Lit("logout")], [], Logout)
  ]

  /** No route of the auth router checks a CSRF token. */
  lemma NoCsrfGuard()
    ensures forall r :: r in Table ==> Csrf !in r.guards && CsrfIfNotTest !in r.guards
  {
  }

  /** The profile routes need `auth` and nothing else. */
  lemma {:induction false} ProfileNeedsAuth(verb: Method, path: Path)
    requires (verb == GET || verb == HEAD) && |path| >= 1 && JsText.LowerAscii(path[0]) == "user"
    requires |path| == 1 || (|path| == 2 && JsText.LowerAscii(path[1]) == "roles")
    ensures Lookup(Table, verb, path).Some? && Lookup(Table, verb, path).value.guards == [Auth]
    ensures Lookup(Table, verb, path).value.handler == if |path| == 1 then GetCurrentUser else GetCurrentUserRoles
  {
    if |path| == 1 {
      LookupFindsFirst(Table, verb, path, 0);
    } else {
      assert path[1..] == [path[1]];
      LookupFindsFirst(Table, verb, path, 1);
    }
  }

  lemma {:induction false} UpdateProfileNeedsAuth(segment: string)
    requires JsText.LowerAscii(segment) == "me"
    ensures Lookup(Table, PATCH, [segment]) == Some(Route(PATCH, [Lit("me")], [Auth], UpdateCurrentUser))
  {
    LookupFindsFirst(Table, PATCH, [segment], 2);
  }

  /** Signing in and registering are public. */
  lemma {:induction false} LoginAndRegisterArePublic(segment: string)
    requires JsText.LowerAscii(segment) == "login" || JsText.LowerAscii(segment) == "register"
    ensures Lookup(Table, POST, [segment]).Some? && Lookup(Table, POST, [segment]).value.guards == []
    ensures Lookup(Table, POST, [segment]).value.handler == if JsText.LowerAscii(segment) == "login" then Login else Register
  {
    if JsText.LowerAscii(segment) == "login" {
      LookupFindsFirst(Table, POST, [segment], 3);
    } else {
      LookupFindsFirst(Table, POST, [segment], 4);
    }
  }

  /** `/token` reaches the refresh handler, unguarded, by POST and by GET. */
  lemma {:induction false} TokenAlias(segment: string)
    requires JsText.LowerAscii(segment) == "token"
    ensures Lookup(Table, POST, [segment]) == Some(Table[5])
    ensures Lookup(Table, GET, [segment]) == Some(Table[7])
  {
    LookupFindsFirst(Table, POST, [segment], 5);
    LookupFindsFirst(Table, GET, [segment], 7);
  }

  /** `/logout` reaches the logout handler, unguarded, by POST and by GET. */
  lemma {:induction false} LogoutAlias(segment: string)
    requires JsText.LowerAscii(segment) == "logout"
    ensures Lookup(Table, POST, [segment]) == Some(Table[6])
    ensures Lookup(Table, GET, [segment]) == Some(Table[8])
  {
    LookupFindsFirst(Table, POST, [segment], 6);
    LookupFindsFirst(Table, GET, [segment], 8);
  }

  /** `/token` and `/logout` reach the same handler, unguarded, by POST and by GET. */
  lemma {:induction false} TokenAndLogoutAliases(segment: string)
    requires JsText.LowerAscii(segment) == "token" || JsText.LowerAscii(segment) == "logout"
    ensures Lookup(Table, POST, [segment]).Some? && Lookup(Table, GET, [segment]).Some?
    ensures Lookup(Table, POST, [segment]).value.handler == Lookup(Table, GET, [segment]).value.handler
    ensures Lookup(Table, POST, [segment]).value.guards == [] == Lookup(Table, GET, [segment]).value.guards
    ensures Lookup(Table, GET, [segment]).value.handler == if JsText.LowerAscii(segment) == "token" then RefreshAccessToken else Logout
  {
    if JsText.LowerAscii(segment) == "token" {
      TokenAlias(segment);
    } else {
      LogoutAlias(segment);
    }
  }
}
