/**
 * `backend/src/controllers/auth.ts`: login, registration, refresh and logout as
 * transitions of the account store. An account keeps the fingerprints (HMAC digests)
 * of its live refresh tokens as a sequence. Token signing and verification, the HMAC,
 * password hashing and the user model's `findUserByCredentials` are not part of this
 * model and come in as function-valued parameters.
 */
module Session {
  import opened Wrappers
  import opened Errors
  import opened Http
  import JsText

  type UserId = string

  datatype Role = Customer | Admin

  datatype Account = Account(
    email: string,
    passwordHash: string,
    name: string,
    roles: seq<Role>,
    tokens: seq<string>)  // fingerprints of the refresh tokens issued and not yet removed

  type Store = map<UserId, Account>

  /** What `findUserByCredentials` does: find the account, throw UnauthorizedError, or fail otherwise. */
  datatype Credentials = Matched(id: UserId) | NoMatch | LookupFailed

  /** The collaborators of the controller. */
  datatype Env = Env(
    fingerprint: string -> string,                       // HMAC-SHA256 of a token under the refresh secret, hex
    verifyRefresh: string -> Option<UserId>,             // `jwt.verify(...)._id`; None when verification throws
    signAccess: (UserId, nat) -> string,                 // `generateAccessToken` at a clock value
    signRefresh: (UserId, nat) -> string,                // the token `generateRefreshToken` mints
    hashPassword: string -> string,                      // the user model's pre-save hook
    findByCredentials: (Store, string, string) -> Credentials,
    schemaAccepts: Account -> bool,                      // the user schema's validators
    defaultRoles: seq<Role>,                             // the schema default for `roles`
    cookieName: string,                                  // REFRESH_TOKEN.cookie.name
    cookieOptions: CookieOptions)                        // REFRESH_TOKEN.cookie.options

  /** The JSON answer: status, the account and access token when there are ones, and the cookie set. */
  datatype AuthResponse = AuthResponse(
    status: int,
    user: Option<UserId>,
    accessToken: Option<string>,
    cookie: SetCookie)

  /** A successful handler run: the store afterwards and the response. */
  datatype Reply = Reply(store: Store, response: AuthResponse)

  // ---------------------------------------------------------------------------
  // Roles

  const AdminPrefix: string := "admin@"

  /** `/^admin@/i.test(email)`: the e-mail starts with `admin@` in any letter case. */
  function IsAdminEmail(email: string): (r: bool)
    ensures r <==> |email| >= 6 && forall i :: 0 <= i < 6 ==> JsText.LowerChar(email[i]) == AdminPrefix[i]
  {
    |email| >= 6 && JsText.LowerAscii(email[..6]) == AdminPrefix
  }

  /** The roles a new account gets: Admin alone for an admin e-mail, else the schema default. */
  function RolesFor(email: string, env: Env): (r: seq<Role>)
    ensures IsAdminEmail(email) ==> r == [Admin]
    ensures !IsAdminEmail(email) ==> r == env.defaultRoles
  {
    if IsAdminEmail(email) then [Admin] else env.defaultRoles
  }

  // ---------------------------------------------------------------------------
  // Fingerprint bookkeeping

  /** `tokens.filter(t => t !== fp)`. */
  function RemoveAll(tokens: seq<string>, fp: string): (r: seq<string>)
    ensures fp !in r
    ensures forall t :: t in r ==> t in tokens
    ensures |r| <= |tokens|
  {
    if |tokens| == 0 then []
    else
      var rest := RemoveAll(tokens[1..], fp);
      assert tokens == [tokens[0]] + tokens[1..];
      if tokens[0] == fp then rest else [tokens[0]] + rest
  }

  /** A list that does not hold the fingerprint comes back unchanged. */
  lemma {:induction false} RemoveAllAbsent(tokens: seq<string>, fp: string)
    requires fp !in tokens
    ensures RemoveAll(tokens, fp) == tokens
  {
    if |tokens| > 0 {
      assert tokens[0] != fp;
      RemoveAllAbsent(tokens[1..], fp);
      RemoveAllCons(tokens, fp);
      assert tokens == [tokens[0]] + tokens[1..];
    }
  }

  /** Every other fingerprint keeps its number of occurrences. */
  lemma {:induction false} RemoveAllCounts(tokens: seq<string>, fp: string)
    ensures multiset(RemoveAll(tokens, fp)) == multiset(tokens)[fp := 0]
  {
    if |tokens| > 0 {
      RemoveAllCounts(tokens[1..], fp);
      assert tokens == [tokens[0]] + tokens[1..];
      assert multiset(tokens) == multiset{tokens[0]} + multiset(tokens[1..]);
    }
  }

  /** `RemoveAll` one token at a time: the head survives unless it is the fingerprint. */
  lemma RemoveAllCons(tokens: seq<string>, fp: string)
    requires |tokens| > 0
    ensures RemoveAll(tokens, fp) == (if tokens[0] == fp then [] else [tokens[0]]) + RemoveAll(tokens[1..], fp)
  {
  }

  /** Filtering keeps order: it distributes over concatenation. */
  lemma {:induction false} RemoveAllConcat(a: seq<string>, b: seq<string>, fp: string)
    ensures RemoveAll(a + b, fp) == RemoveAll(a, fp) + RemoveAll(b, fp)
  {
    if |a| == 0 {
      assert a + b == b;
    } else {
      RemoveAllConcat(a[1..], b, fp);
      JsText.ConcatSplit(a, b);
      RemoveAllCons(a + b, fp);
      RemoveAllCons(a, fp);
      var tail := RemoveAll(a[1..], fp);
      var rb := RemoveAll(b, fp);
      if a[0] == fp {
        assert RemoveAll(a + b, fp) == [] + (tail + rb);
      } else {
        assert RemoveAll(a + b, fp) == [a[0]] + (tail + rb);
        assert [a[0]] + (tail + rb) == ([a[0]] + tail) + rb;
      }
    }
  }

  /** Removing a fingerprint twice is removing it once. */
  lemma {:induction false} RemoveAllIdempotent(tokens: seq<string>, fp: string)
    ensures RemoveAll(RemoveAll(tokens, fp), fp) == RemoveAll(tokens, fp)
  {
    RemoveAllAbsent(RemoveAll(tokens, fp), fp);
  }

  /** The fingerprint a presented refresh token is looked up by. */
  function Fingerprint(token: string, env: Env): string
  {
    env.fingerprint(token)
  }

  /** A refresh token the account no longer lists: logged out or already rotated. */
  predicate Revoked(store: Store, id: UserId, token: string, env: Env)
    requires id in store
  {
    Fingerprint(token, env) !in store[id].tokens
  }

  /** A cookie value is usable when present and non-empty (`if (!rfTkn)`). */
  predicate HasCookie(cookie: Option<string>)
  {
    cookie.Some? && cookie.value != ""
  }

  /** `deleteRefreshTokenInUser`'s result: the updated store and the account it resolved. */
  datatype Removal = Removal(store: Store, id: UserId)

  /**
   * `deleteRefreshTokenInUser`: missing cookie and unknown account answer Unauthorized, a
   * token failing verification propagates unmapped; otherwise every entry equal to the
   * token's fingerprint is dropped, whether or not there was one.
   */
  function DeleteRefreshToken(store: Store, cookie: Option<string>, env: Env): (r: Result<Removal>)
    ensures !HasCookie(cookie) ==> r == Err(Unauthorized)
    ensures HasCookie(cookie) && env.verifyRefresh(cookie.value).None? ==> r == Err(Unmapped(TokenVerification))
    ensures HasCookie(cookie) && env.verifyRefresh(cookie.value).Some? && env.verifyRefresh(cookie.value).value !in store ==>
              r == Err(Unauthorized)
    ensures r.Ok? <==> HasCookie(cookie) && env.verifyRefresh(cookie.value).Some? && env.verifyRefresh(cookie.value).value in store
    ensures r.Ok? ==>
              && r.value.id == env.verifyRefresh(cookie.value).value
              && r.value.store.Keys == store.Keys
              && r.value.store[r.value.id] == store[r.value.id].(tokens := RemoveAll(store[r.value.id].tokens, Fingerprint(cookie.value, env)))
              && forall other :: other in store && other != r.value.id ==> r.value.store[other] == store[other]
  {
    if !HasCookie(cookie) then Err(Unauthorized)
    else
      match env.verifyRefresh(cookie.value)
      case None => Err(Unmapped(TokenVerification))
      case Some(id) =>
        if id !in store then Err(Unauthorized)
        else
          var account := store[id];
          var kept := RemoveAll(account.tokens, Fingerprint(cookie.value, env));
          Ok(Removal(store[id := account.(tokens := kept)], id))
  }

  /** The issue step of `generateAccessToken` and `generateRefreshToken`. */
  datatype Issued = Issued(store: Store, accessToken: string, refreshToken: string)

  /** Mints both tokens for an account and appends the new refresh token's fingerprint. */
  function Mint(store: Store, id: UserId, env: Env, clock: nat): (r: Issued)
    requires id in store
    ensures r.store.Keys == store.Keys
    ensures r.store[id] == store[id].(tokens := store[id].tokens + [Fingerprint(r.refreshToken, env)])
    ensures forall other :: other in store && other != id ==> r.store[other] == store[other]
    ensures r.refreshToken == env.signRefresh(id, clock) && r.accessToken == env.signAccess(id, clock)
  {
    var refresh := env.signRefresh(id, clock);
    var account := store[id];
    Issued(store[id := account.(tokens := account.tokens + [Fingerprint(refresh, env)])],
           env.signAccess(id, clock), refresh)
  }

  /**
   * What every sign-in leaves behind, relative to the store it started from: the account
   * lists the fingerprint of the refresh token minted for it after its old ones, no other
   * account or field changes, and the answer carries the new access token and sets the
   * refresh cookie to the minted token.
   */
  predicate SignsIn(before: Store, after: Reply, id: UserId, status: int, env: Env, clock: nat)
    requires id in before
  {
    var minted := env.signRefresh(id, clock);
    && after.store.Keys == before.Keys
    && after.store[id] == before[id].(tokens := before[id].tokens + [Fingerprint(minted, env)])
    && (forall other :: other in before && other != id ==> after.store[other] == before[other])
    && after.response == AuthResponse(status, Some(id), Some(env.signAccess(id, clock)),
                                      SetCookie(env.cookieName, minted, env.cookieOptions))
  }

  /** The response of a handler that logged an account in with freshly minted tokens. */
  function SignedIn(status: int, id: UserId, issued: Issued, env: Env): AuthResponse
  {
    AuthResponse(status, Some(id), Some(issued.accessToken),
                 SetCookie(env.cookieName, issued.refreshToken, env.cookieOptions))
  }

  // ---------------------------------------------------------------------------
  // Logout and refresh as written

  /**
   * `logout`: remove the fingerprint, then overwrite the cookie with '' and `maxAge: -1`,
   * keeping every other cookie option, and answer 200.
   */
  function Logout(store: Store, cookie: Option<string>, env: Env): (r: Result<Reply>)
    ensures r.Err? <==> DeleteRefreshToken(store, cookie, env).Err?
    ensures r.Err? ==> r.error == DeleteRefreshToken(store, cookie, env).error
    ensures r.Ok? ==>
              && r.value.store == DeleteRefreshToken(store, cookie, env).value.store
              && r.value.response.status == 200
              && r.value.response.user.None? && r.value.response.accessToken.None?
              && r.value.response.cookie == SetCookie(env.cookieName, "", env.cookieOptions.(maxAge := -1))
  {
    var removal :- DeleteRefreshToken(store, cookie, env);
    var expired := env.cookieOptions.(maxAge := -1);
    Ok(Reply(removal.store, AuthResponse(200, None, None, SetCookie(env.cookieName, "", expired))))
  }

  /**
   * `refreshAccessToken`: remove the presented fingerprint, mint a new pair, store the new
   * fingerprint and set the new refresh cookie.
   */
  function RefreshAccessToken(store: Store, cookie: Option<string>, env: Env, clock: nat): (r: Result<Reply>)
    ensures r.Err? <==> DeleteRefreshToken(store, cookie, env).Err?
    ensures r.Err? ==> r.error == DeleteRefreshToken(store, cookie, env).error
    ensures r.Ok? ==>
              var id := env.verifyRefresh(cookie.value).value;
              var minted := env.signRefresh(id, clock);
              && id in store
              && r.value.store.Keys == store.Keys
              && r.value.store[id] == store[id].(tokens := RemoveAll(store[id].tokens, Fingerprint(cookie.value, env)) + [Fingerprint(minted, env)])
              && (forall other :: other in store && other != id ==> r.value.store[other] == store[other])
              && r.value.response == AuthResponse(200, Some(id), Some(env.signAccess(id, clock)),
                                                   SetCookie(env.cookieName, minted, env.cookieOptions))
  {
    var removal :- DeleteRefreshToken(store, cookie, env);
    var issued := Mint(removal.store, removal.id, env, clock);
    Ok(Reply(issued.store, SignedIn(200, removal.id, issued, env)))
  }

  /**
   * The removal never checks that the fingerprint was there: a token already revoked
   * still refreshes, as long as it verifies and its account exists.
   */
  lemma RevokedTokenStillRefreshes(store: Store, cookie: Option<string>, env: Env, clock: nat)
    requires HasCookie(cookie) && env.verifyRefresh(cookie.value).Some?
    requires env.verifyRefresh(cookie.value).value in store
    requires Revoked(store, env.verifyRefresh(cookie.value).value, cookie.value, env)
    ensures RefreshAccessToken(store, cookie, env, clock).Ok?
  {
  }

  /** Logging out and then refreshing with the same token succeeds. */
  lemma {:induction false} RefreshAfterLogoutSucceeds(store: Store, cookie: Option<string>, env: Env, clock: nat)
    requires Logout(store, cookie, env).Ok?
    ensures RefreshAccessToken(Logout(store, cookie, env).value.store, cookie, env, clock).Ok?
  {
    var after := Logout(store, cookie, env).value.store;
    var id := env.verifyRefresh(cookie.value).value;
    assert id in after;
    RevokedTokenStillRefreshes(after, cookie, env, clock);
  }

  /** Refreshing twice with the same token succeeds twice: the token is not single-use. */
  lemma {:induction false} RefreshTokenReplays(store: Store, cookie: Option<string>, env: Env, clock1: nat, clock2: nat)
    requires RefreshAccessToken(store, cookie, env, clock1).Ok?
    ensures RefreshAccessToken(RefreshAccessToken(store, cookie, env, clock1).value.store, cookie, env, clock2).Ok?
  {
    var after := RefreshAccessToken(store, cookie, env, clock1).value.store;
    assert env.verifyRefresh(cookie.value).value in after;
  }

  // ---------------------------------------------------------------------------
  // Logout and refresh with the presence check

  /**
   * The removal with the check the protocol needs: a token whose fingerprint the
   * account does not list is refused with Unauthorized, like an unknown account.
   */
  function ConsumeRefreshToken(store: Store, cookie: Option<string>, env: Env): (r: Result<Removal>)
    ensures r.Ok? <==>
              DeleteRefreshToken(store, cookie, env).Ok? &&
              !Revoked(store, env.verifyRefresh(cookie.value).value, cookie.value, env)
    ensures r.Ok? ==> r == DeleteRefreshToken(store, cookie, env)
    ensures DeleteRefreshToken(store, cookie, env).Ok? && r.Err? ==> r.error == Unauthorized
    ensures DeleteRefreshToken(store, cookie, env).Err? ==> r == DeleteRefreshToken(store, cookie, env)
  {
    var removal :- DeleteRefreshToken(store, cookie, env);
    if Fingerprint(cookie.value, env) in store[removal.id].tokens then Ok(removal) else Err(Unauthorized)
  }

  /** `logout` with the presence check. */
  function LogoutChecked(store: Store, cookie: Option<string>, env: Env): (r: Result<Reply>)
    ensures r.Err? <==> ConsumeRefreshToken(store, cookie, env).Err?
    ensures r.Ok? ==> r == Logout(store, cookie, env)
  {
    var removal :- ConsumeRefreshToken(store, cookie, env);
    var expired := env.cookieOptions.(maxAge := -1);
    Ok(Reply(removal.store, AuthResponse(200, None, None, SetCookie(env.cookieName, "", expired))))
  }

  /** `refreshAccessToken` with the presence check: rotation on use. */
  function RefreshRotating(store: Store, cookie: Option<string>, env: Env, clock: nat): (r: Result<Reply>)
    ensures r.Err? <==> ConsumeRefreshToken(store, cookie, env).Err?
    ensures r.Ok? ==> r == RefreshAccessToken(store, cookie, env, clock)
  {
    var removal :- ConsumeRefreshToken(store, cookie, env);
    var issued := Mint(removal.store, removal.id, env, clock);
    Ok(Reply(issued.store, SignedIn(200, removal.id, issued, env)))
  }

  /** With the check, a revoked token is refused with Unauthorized. */
  lemma RevokedTokenRefused(store: Store, cookie: Option<string>, env: Env, clock: nat)
    requires HasCookie(cookie) && env.verifyRefresh(cookie.value).Some?
    requires env.verifyRefresh(cookie.value).value in store
    requires Revoked(store, env.verifyRefresh(cookie.value).value, cookie.value, env)
    ensures RefreshRotating(store, cookie, env, clock) == Err(Unauthorized)
    ensures LogoutChecked(store, cookie, env) == Err(Unauthorized)
  {
  }

  /**
   * Single use: after one successful rotation the same token is refused, provided the
   * newly minted token has a different fingerprint.
   */
  lemma {:induction false} RotationIsSingleUse(store: Store, cookie: Option<string>, env: Env, clock1: nat, clock2: nat)
    requires RefreshRotating(store, cookie, env, clock1).Ok?
    requires var id := env.verifyRefresh(cookie.value).value;
             Fingerprint(env.signRefresh(id, clock1), env) != Fingerprint(cookie.value, env)
    ensures RefreshRotating(RefreshRotating(store, cookie, env, clock1).value.store, cookie, env, clock2) == Err(Unauthorized)
  {
    var id := env.verifyRefresh(cookie.value).value;
    var after := RefreshRotating(store, cookie, env, clock1).value.store;
    var fp := Fingerprint(cookie.value, env);
    assert after[id].tokens == RemoveAll(store[id].tokens, fp) + [Fingerprint(env.signRefresh(id, clock1), env)];
    assert fp !in after[id].tokens;
    RevokedTokenRefused(after, cookie, env, clock2);
  }

  /** With the check, logging out revokes the token for good. */
  lemma {:induction false} LogoutThenRefreshRefused(store: Store, cookie: Option<string>, env: Env, clock: nat)
    requires LogoutChecked(store, cookie, env).Ok?
    ensures RefreshRotating(LogoutChecked(store, cookie, env).value.store, cookie, env, clock) == Err(Unauthorized)
  {
    var after := LogoutChecked(store, cookie, env).value.store;
    var id := env.verifyRefresh(cookie.value).value;
    assert Fingerprint(cookie.value, env) !in after[id].tokens;
    RevokedTokenRefused(after, cookie, env, clock);
  }

  /**
   * The cookie a sign-in sets is a live refresh token: the checked refresh accepts it, as
   * long as the minted token is non-empty and verifies as the account's.
   */
  lemma {:induction false} SignedInCookieRotates(before: Store, after: Reply, id: UserId, status: int, env: Env, clock: nat, later: nat)
    requires id in before && SignsIn(before, after, id, status, env, clock)
    requires env.signRefresh(id, clock) != "" && env.verifyRefresh(env.signRefresh(id, clock)) == Some(id)
    ensures RefreshRotating(after.store, Some(after.response.cookie.value), env, later).Ok?
  {
    var minted := env.signRefresh(id, clock);
    assert after.response.cookie.value == minted;
    assert after.store[id].tokens == before[id].tokens + [Fingerprint(minted, env)];
    assert Fingerprint(minted, env) in after.store[id].tokens;
  }

  // ---------------------------------------------------------------------------
  // Login and registration

  /**
   * `save` of a new account: the schema's validators run first, then the unique e-mail
   * index refuses a second account with the same address.
   */
  function SaveNew(store: Store, id: UserId, account: Account, env: Env): (r: Result<Store>)
    requires id !in store
    ensures r.Ok? <==> env.schemaAccepts(account) && forall u :: u in store ==> store[u].email != account.email
    ensures r.Ok? ==> r.value == store[id := account]
    ensures !env.schemaAccepts(account) ==> r == Err(Unmapped(SchemaViolation))
    ensures env.schemaAccepts(account) && r.Err? ==> r == Err(Unmapped(DuplicateKey))
  {
    if !env.schemaAccepts(account) then Err(Unmapped(SchemaViolation))
    else if exists u :: u in store && store[u].email == account.email then Err(Unmapped(DuplicateKey))
    else Ok(store[id := account])
  }

  /** The account `new User({...})` builds before saving. */
  function NewAccount(email: string, password: string, name: string, env: Env): (a: Account)
    ensures a.tokens == [] && a.email == email && a.name == name
    ensures a.roles == RolesFor(email, env)
  {
    Account(email, env.hashPassword(password), name, RolesFor(email, env), [])
  }

  /** Mints for an account the credential lookup returned; a vanished account is a store failure. */
  function SignInExisting(store: Store, id: UserId, status: int, env: Env, clock: nat): (r: Result<Reply>)
    ensures r.Ok? <==> id in store
    ensures r.Ok? ==> SignsIn(store, r.value, id, status, env, clock)
  {
    if id !in store then Err(Unmapped(StoreFailure))
    else
      var issued := Mint(store, id, env, clock);
      Ok(Reply(issued.store, SignedIn(status, id, issued, env)))
  }

  /**
   * `login`: known credentials sign in; an UnauthorizedError creates an account named
   * 'User' from the submitted e-mail and password and signs it in; any other error, and
   * any error of that creation, propagates unmapped.
   */
  function Login(store: Store, email: string, password: string, env: Env, clock: nat, newId: UserId): (r: Result<Reply>)
    requires newId !in store
    ensures env.findByCredentials(store, email, password).Matched? ==>
              r == SignInExisting(store, env.findByCredentials(store, email, password).id, 200, env, clock)
    ensures env.findByCredentials(store, email, password).LookupFailed? ==> r == Err(Unmapped(StoreFailure))
    ensures env.findByCredentials(store, email, password).NoMatch? ==>
              match SaveNew(store, newId, NewAccount(email, password, "User", env), env)
              case Err(e) => r == Err(e)
              case Ok(created) =>
                && r.Ok? && newId in created && SignsIn(created, r.value, newId, 200, env, clock)
                && r.value.store[newId].roles == RolesFor(email, env) && r.value.store[newId].email == email
                && r.value.store[newId].tokens == [Fingerprint(env.signRefresh(newId, clock), env)]
  {
    match env.findByCredentials(store, email, password)
    case Matched(id) => SignInExisting(store, id, 200, env, clock)
    case LookupFailed => Err(Unmapped(StoreFailure))
    case NoMatch =>
      var created :- SaveNew(store, newId, NewAccount(email, password, "User", env), env);
      var issued := Mint(created, newId, env, clock);
      Ok(Reply(issued.store, SignedIn(200, newId, issued, env)))
  }

  /** `name || 'User'`. */
  function DisplayName(name: Option<string>): (r: string)
    ensures r != ""
    ensures name.Some? && name.value != "" ==> r == name.value
  {
    match name
    case Some(n) => if n != "" then n else "User"
    case None => "User"
  }

  /**
   * `register`: a new e-mail is created and signed in with 201; a duplicate e-mail signs
   * in with 200 when the credentials match and is a Conflict otherwise; a schema
   * violation is a BadRequest.
   */
  function Register(store: Store, email: string, password: string, name: Option<string>, env: Env,
                    clock: nat, newId: UserId): (r: Result<Reply>)
    requires newId !in store
    ensures var saved := SaveNew(store, newId, NewAccount(email, password, DisplayName(name), env), env);
            && (saved.Ok? ==> r.Ok? && newId in saved.value && SignsIn(saved.value, r.value, newId, 201, env, clock)
                              && r.value.store[newId].roles == RolesFor(email, env)
                              && r.value.store[newId].tokens == [Fingerprint(env.signRefresh(newId, clock), env)])
            && (saved == Err(Unmapped(SchemaViolation)) ==> r == Err(BadRequest))
            && (saved == Err(Unmapped(DuplicateKey)) ==>
                  var found := env.findByCredentials(store, email, password);
                  if found.Matched? && found.id in store then r.Ok? && SignsIn(store, r.value, found.id, 200, env, clock)
                  else r == Err(Conflict))
  {
    var account := NewAccount(email, password, DisplayName(name), env);
    match SaveNew(store, newId, account, env)
    case Ok(created) =>
      var issued := Mint(created, newId, env, clock);
      Ok(Reply(issued.store, SignedIn(201, newId, issued, env)))
    case Err(e) =>
      if e == Unmapped(DuplicateKey) then
        match env.findByCredentials(store, email, password)
        case Matched(id) => if id in store then SignInExisting(store, id, 200, env, clock) else Err(Conflict)
        case _ => Err(Conflict)
      else if e == Unmapped(SchemaViolation) then Err(BadRequest)
      else Err(e)
  }

  /** Every registration or login that creates an account makes it Admin iff its e-mail is an admin e-mail. */
  lemma {:induction false} AdminIffAdminEmail(store: Store, email: string, password: string, name: Option<string>,
                                              env: Env, clock: nat, newId: UserId)
    requires newId !in store && Admin !in env.defaultRoles
    ensures var r := Register(store, email, password, name, env, clock, newId);
            r.Ok? && r.value.response.status == 201 ==> (Admin in r.value.store[newId].roles <==> IsAdminEmail(email))
    ensures var r := Login(store, email, password, env, clock, newId);
            env.findByCredentials(store, email, password).NoMatch? && r.Ok? ==>
              (Admin in r.value.store[newId].roles <==> IsAdminEmail(email))
  {
    var saved := SaveNew(store, newId, NewAccount(email, password, DisplayName(name), env), env);
    var r := Register(store, email, password, name, env, clock, newId);
    if r.Ok? && r.value.response.status == 201 {
      assert saved.Ok?;
    }
    var l := Login(store, email, password, env, clock, newId);
    if env.findByCredentials(store, email, password).NoMatch? && l.Ok? {
      assert SaveNew(store, newId, NewAccount(email, password, "User", env), env).Ok?;
    }
  }

  /**
   * A wrong password for an existing e-mail on login does not answer Unauthorized: the
   * fallback tries to create a second account with that e-mail and the duplicate-key
   * error propagates unmapped.
   */
  lemma {:induction false} LoginWrongPasswordIsServerError(store: Store, email: string, password: string,
                                                           env: Env, clock: nat, newId: UserId, holder: UserId)
    requires newId !in store && holder in store && store[holder].email == email
    requires env.findByCredentials(store, email, password).NoMatch?
    requires env.schemaAccepts(NewAccount(email, password, "User", env))
    ensures Login(store, email, password, env, clock, newId) == Err(Unmapped(DuplicateKey))
  {
    assert !(forall u :: u in store ==> store[u].email != email);
  }
}
