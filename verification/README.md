# bad-server storefront backend, modelled in Dafny

This project models the request-handling core of the `bad-server` storefront backend, an
Express application written in TypeScript. The model covers:

- the middleware path of `app.ts`: the CORS origin callback and the explicit CORS headers,
  the preflight answer, the health check, static files, the routers mounted at both `/api`
  and `/`, and the error handler;
- the routers (`routes/*.ts`) as tables of routes. A request resolves to a plan: the guard
  chain that runs, and the handler or the not-found fallback at its end;
- the CSRF double-submit middleware (`middlewares/csrf.ts`);
- the celebrate/Joi body validators (`middlewares/validations.ts`). Each schema is a map from
  field name to rule;
- the controllers:
  - `auth.ts`: login with its account creation, register, logout and refresh-token rotation;
  - `order.ts`: the admin listing and the caller's own listing, lookups by number, create,
    update and delete;
  - `customers.ts`: the listing and the by-id read, update and delete;
  - `upload.ts`, together with the MIME sniffer `utils/validateMimeType.ts`;
- the query helpers of `utils/parseQuery.ts`.

Everything is pure functions over immutable values. Outside effects are parameters of
the model:

- the user store is a `map` from id to account;
- signing, verifying and hashing tokens are functions in an `Env` value;
- `Number()` and `new Date()` on query strings are functions in a `Coercions` value;
- the e-mail and ObjectId checks are functions in a `Checkers` value;
- the random bytes of a stored file name are an argument;
- whether a regular expression compiles is a predicate of a `TitleIndex` value.

An error a handler passes to `next` is an `ErrorKind` (`wrappers.dfy`). Each kind carries
its HTTP status code, except `Unmapped`, which the error handler answers with 500.

The model follows the code as written, including these behaviours a reader might not expect:

- A refresh token that fails `jwt.verify` is not turned into Unauthorized. The error
  reaches the error handler and is answered with 500.
- The CSRF cookie is set with `httpOnly: true`.
- `login` creates an account when the credentials are not found. With a wrong password
  for an existing e-mail, creating that account hits the unique index, and the
  duplicate-key error is answered with 500.
- The customer router puts `csrfIfNotTest` in front of its mutations, but `csrf.ts` does not
  export that name. The model treats it as a guard whose verdict is a parameter.
- `order.ts` imports `escapeHtml` from `parseQuery.ts`, which does not define it. The
  comment sanitiser is a parameter (`OrderEnv.escapeHtml`).
- The order listing's sort field is used without any whitelist. The customer listing's
  sort field is whitelisted.
- The customer listing ignores date and number bounds it cannot read. The order listing
  refuses them with 400.

## Model

| member | source | states |
|---|---|---|
| Errors.StatusCode | backend/src/middlewares/error-handler.ts:3-4 | Every mapped error kind has a 4xx status code; only an unmapped error has none and so falls back to 500 |
| ErrorHandler.StatusOf | backend/src/middlewares/error-handler.ts:4 | An error with a non-zero statusCode keeps it; a missing error, a missing status code or a zero one gives 500 |
| ErrorHandler.HandleError | backend/src/middlewares/error-handler.ts:3-10 | The response status is the error's status; a 500 always carries the generic server text; any other status carries the error's own message |
| ErrorHandler.ErrorKindResponse | backend/src/middlewares/error-handler.ts:3-10 | Every application error reaches the client with its own status and message; an unmapped one becomes a 500 whose text is hidden |
| ErrorHandler.ExplicitServerErrorHidesMessage | backend/src/middlewares/error-handler.ts:5-6 | An error that sets status 500 itself still has its message replaced by the generic text |
| ParseQuery.SafeString | backend/src/utils/parseQuery.ts:1-8 | A non-string gives null; a string gives null exactly when it is all whitespace; otherwise the result is a prefix of the trimmed text of at most maxLen UTF-16 code units, the longest such prefix, and the whole trimmed text when it fits |
| ParseQuery.EscapeRegexForSearch | backend/src/utils/parseQuery.ts:10-14 | The result is a literal pattern; unescaping it gives back exactly the longest prefix of the input of at most maxLen UTF-16 code units, and the whole input when it fits; its length is between one and two times that prefix's |
| ParseQuery.UnescapeEscape | backend/src/utils/parseQuery.ts:13 | Removing the inserted backslashes recovers the input |
| ParseQuery.EscapeUnescape | backend/src/utils/parseQuery.ts:13 | Every literal pattern is the escape of exactly one string, its unescaping (the other half of the round trip) |
| ParseQuery.EscapeIsLiteral | backend/src/utils/parseQuery.ts:13 | Escaping leaves no metacharacter or backslash outside a backslash pair |
| ParseQuery.EscapeLength | backend/src/utils/parseQuery.ts:13 | Escaping adds exactly one character per metacharacter |
| ParseQuery.EscapePlainIsIdentity | backend/src/utils/parseQuery.ts:13 | A string without metacharacters is its own escape |
| MimeSniff.FindSignature | backend/src/utils/validateMimeType.ts:13-15 | The found entry is the first table entry whose magic bytes prefix the buffer; none found means no entry's magic does |
| MimeSniff.ValidateMimeType | backend/src/utils/validateMimeType.ts:9-25 | Any signature that prefixes the file decides its type; SVG is answered iff no signature matches and the trimmed first 256 bytes start with `<?xml` or `<svg`; null iff neither; every answer is an `image/` type; fewer than 3 bytes give null |
| MimeSniff.SignatureDecides | backend/src/utils/validateMimeType.ts:3-17 | A file whose bytes start with the PNG, JPEG or GIF magic is that type, since the magics exclude each other |
| MimeSniff.ShortTextIsNotSvg | backend/src/utils/validateMimeType.ts:19-20 | Only a buffer of at least 4 bytes can look like SVG |
| MimeSniff.TrailingTrimIrrelevant | backend/src/utils/validateMimeType.ts:19-20 | Trimming the end of the text never changes whether it starts with a marker; only leading whitespace matters |
| Upload.Extname | backend/src/controllers/upload.ts:39 | The extension is empty or a dot followed by characters that are neither dots nor slashes |
| Upload.ExtnameOfPlainName | backend/src/controllers/upload.ts:39 | The extension of `stem.ext` is `.ext` |
| Upload.SafeExt | backend/src/controllers/upload.ts:39-40 | The kept extension is at most 10 UTF-16 code units long; it is empty or the lower-cased extension, and empty exactly when there is no extension or the lower-cased one is longer than 10 units |
| Upload.ShortExtensionKept | backend/src/controllers/upload.ts:39-40 | An extension of 1 to 10 code units is kept, lower-cased |
| Upload.LongExtensionDropped | backend/src/controllers/upload.ts:39-40 | An extension longer than 10 code units is dropped |
| Upload.AstralExtensionDropped | backend/src/controllers/upload.ts:39-40 | `a.` followed by five emoji keeps no extension: six characters, but eleven code units |
| Upload.HexEncode | backend/src/controllers/upload.ts:41 | Two lower-case hex digits per random byte |
| Upload.HexRoundTrip | backend/src/controllers/upload.ts:41 | Decoding the hex text gives the random bytes back, so the name determines them |
| Upload.StoredName | backend/src/controllers/upload.ts:41 | 32 hex digits followed by the safe extension; nothing else of the original name |
| Upload.CollapseSplit | backend/src/controllers/upload.ts:58 | Collapsing backslash runs distributes over concatenation once the run state at the seam is carried across |
| Upload.CollapseNoRunStart | backend/src/controllers/upload.ts:58 | A piece that does not start with a backslash collapses the same whatever precedes it |
| Upload.CollapsePlain | backend/src/controllers/upload.ts:58 | A string without backslashes is left unchanged |
| Upload.CollapseHasNoBackslash | backend/src/controllers/upload.ts:58 | No backslash survives the collapse |
| Upload.JoinCollapses | backend/src/controllers/upload.ts:56-58 | Collapsing the joined path collapses the directory and the file name each on its own, since the `/` between them ends any run |
| Upload.PublicName | backend/src/controllers/upload.ts:56-58 | The public name is `/`, the collapsed directory, `/`, the collapsed file name, and contains no backslash |
| Upload.PublicNameEndsWithStoredName | backend/src/controllers/upload.ts:56-58 | A stored name without backslashes is published verbatim after the directory |
| Upload.UploadFile | backend/src/controllers/upload.ts:16-64 | A missing file, a too small one, a too large one and a non-image are refused in that order; NotAnImage iff the size is in range and sniffing finds no type; Created iff a file is present, its size is within the limits and sniffing finds a type; an accepted file is answered 201 with its size, the sniffed `image/` type and the public name |
| Upload.ToResult | backend/src/controllers/upload.ts:18-35 | Every refusal is reported as BadRequest |
| Upload.NameIndependentOfBasename | backend/src/controllers/upload.ts:38-41 | Two files with the same bytes and extension are stored alike, whatever their base names |
| Upload.EmptyRangeRejectsAll | backend/src/controllers/upload.ts:22-29 | With a minimum above the maximum no file is accepted |
| Cors.Whitelist | backend/src/app.ts:34-38 | The list holds both local origins and holds ORIGIN_ALLOW iff it is non-empty; it holds nothing else and no empty entry |
| Cors.OriginCallback | backend/src/app.ts:41-44 | A request without an origin, or with a listed one, is allowed; any other origin is an unmapped error |
| Cors.ExplicitHeaders | backend/src/app.ts:68-93 | Allow-Origin echoes the request origin iff it is listed and is the local development origin otherwise; it is always a listed origin; credentials are allowed and caches vary on Origin |
| Cors.RefusedOriginIsServerError | backend/src/app.ts:43 | A refused origin reaches the error handler as a 500 with the generic text |
| Cors.AllowedOriginIsEchoed | backend/src/app.ts:41-73 | Whenever the callback lets an origin through, the explicit header echoes that origin |
| Csrf.SessionRaw | backend/src/middlewares/csrf.ts:7-10 | The session value is the refresh cookie when that is non-empty, else `ip-userAgent` with a missing agent printed as empty |
| Csrf.CookieDecidesSession | backend/src/middlewares/csrf.ts:7-12 | Two requests with the same refresh cookie share a session whatever their address and user agent |
| Csrf.ClientDecidesSessionBeforeLogin | backend/src/middlewares/csrf.ts:7-12 | Without a cookie, requests from the same address and user agent share a session |
| Csrf.HeaderToken | backend/src/middlewares/csrf.ts:15-16 | A repeated header contributes its first value |
| Csrf.SubmittedToken | backend/src/middlewares/csrf.ts:14-20 | The header wins iff it is present; the body's `_csrf` iff there is no header and the body value is not nullish; then the query; otherwise the empty string |
| Csrf.Protect | backend/src/middlewares/csrf.ts:33-45 | GET, HEAD and OPTIONS always pass; any other method passes iff the token it submits equals `sign(secret, sessionIdentifier)`, the library's check as this model abstracts it (see "## Left out"); a refusal is InvalidCsrfToken |
| Csrf.IssuedTokenAccepted | backend/src/middlewares/csrf.ts:7-45 | A token issued to a session is accepted on any later request of the same session, whichever channel carries it |
| Csrf.EmptyHeaderShadowsBody | backend/src/middlewares/csrf.ts:19 | An empty header hides a correct token in the body, so the request is refused |
| Csrf.PickGenerator | backend/src/middlewares/csrf.ts:47-53 | `generateToken` is preferred, then `generateCsrfToken`; with neither, an unmapped error |
| Csrf.CsrfCookieOptions | backend/src/middlewares/csrf.ts:26-32 | The cookie is same-site strict, site-wide, HTTP-only and valid for one hour; it is secure iff NODE_ENV is production |
| Session.IsAdminEmail | backend/src/controllers/auth.ts:14 | True iff the e-mail's first six characters are `admin@` in any letter case |
| Session.RolesFor | backend/src/controllers/auth.ts:38 | An admin e-mail gets the Admin role alone; any other e-mail gets the schema's default roles |
| Session.RemoveAll | backend/src/controllers/auth.ts:171 | The fingerprint no longer occurs, nothing new appears, and the list does not grow |
| Session.RemoveAllAbsent | backend/src/controllers/auth.ts:171 | A list that does not hold the fingerprint comes back unchanged |
| Session.RemoveAllCounts | backend/src/controllers/auth.ts:171 | Every other fingerprint keeps its number of occurrences (a multiset statement) |
| Session.RemoveAllConcat | backend/src/controllers/auth.ts:171 | Filtering keeps order: it distributes over concatenation |
| Session.RemoveAllIdempotent | backend/src/controllers/auth.ts:171 | Removing a fingerprint twice is removing it once |
| Session.DeleteRefreshToken | backend/src/controllers/auth.ts:147-175 | A missing cookie or an unknown account is Unauthorized; a token failing verification is unmapped; otherwise the account's fingerprints lose every copy of the token's fingerprint and nothing else in the store changes |
| Session.Mint | backend/src/controllers/auth.ts:204-205 | Minting appends the new refresh token's fingerprint to the account and changes no other account |
| Session.Logout | backend/src/controllers/auth.ts:178-190 | Logout fails exactly when the removal fails; on success the cookie is overwritten with an empty value and maxAge -1, keeping the other options, and the answer is 200 |
| Session.RefreshAccessToken | backend/src/controllers/auth.ts:193-219 | Refresh fails exactly when the removal fails; on success the old fingerprint is removed and the new one appended, the account's other fields and every other account are unchanged, the store keeps its keys, and the minted tokens are answered and set as the cookie |
| Session.RevokedTokenStillRefreshes | backend/src/controllers/auth.ts:167-171 | As written, a token the account no longer lists still refreshes |
| Session.RefreshAfterLogoutSucceeds | backend/src/controllers/auth.ts:178-219 | As written, logging out and then refreshing with the same token succeeds |
| Session.RefreshTokenReplays | backend/src/controllers/auth.ts:193-219 | As written, the same refresh token can be used twice |
| Session.ConsumeRefreshToken | backend/src/controllers/auth.ts:147-175 | The corrected removal succeeds iff the original does and the account lists the fingerprint; otherwise it is Unauthorized, or the original error |
| Session.LogoutChecked | backend/src/controllers/auth.ts:178-190 | Corrected logout: refused iff the corrected removal is refused, otherwise the same as the original |
| Session.RefreshRotating | backend/src/controllers/auth.ts:193-219 | Corrected refresh: refused iff the corrected removal is refused, otherwise the same as the original |
| Session.RevokedTokenRefused | backend/src/controllers/auth.ts:167-171 | With the check, a revoked token is refused with Unauthorized by refresh and by logout |
| Session.RotationIsSingleUse | backend/src/controllers/auth.ts:193-219 | With the check, a token that refreshed once is refused the second time |
| Session.LogoutThenRefreshRefused | backend/src/controllers/auth.ts:178-219 | With the check, a token that logged out can no longer refresh |
| Session.SaveNew | backend/src/controllers/auth.ts:40 | A save succeeds iff the schema accepts the account and no account has its e-mail; a schema failure and a duplicate key are unmapped errors |
| Session.NewAccount | backend/src/controllers/auth.ts:34-39 | The new account has no tokens, the given e-mail and name, and the roles its e-mail calls for |
| Session.SignInExisting | backend/src/controllers/auth.ts:22-30 | Signing in succeeds iff the account exists; the account then lists the fingerprint of the newly minted refresh token after its old ones, nothing else in the store changes, and the answer carries the access token and sets the refresh cookie to the minted token |
| Session.SignedInCookieRotates | backend/src/controllers/auth.ts:24-30 | The refresh cookie a sign-in sets is live: the checked refresh accepts it whenever it verifies as the account's |
| Session.Login | backend/src/controllers/auth.ts:17-56 | Matching credentials sign in; a lookup failure is unmapped; on no match an account named `User` is created and signed in, holding exactly the fingerprint of the refresh token set as the cookie, or the creation's error propagates |
| Session.DisplayName | backend/src/controllers/auth.ts:67 | The name is the given one when non-empty, `User` otherwise, and never empty |
| Session.Register | backend/src/controllers/auth.ts:59-124 | A new e-mail is saved and signed in with 201, holding exactly the fingerprint of the refresh token set as the cookie; a duplicate e-mail signs in with 200 when the credentials match, storing the new fingerprint, and is Conflict otherwise; a schema violation is BadRequest |
| Session.AdminIffAdminEmail | backend/src/controllers/auth.ts:34-81 | An account created by register or login is Admin iff its e-mail is an admin e-mail |
| Session.LoginWrongPasswordIsServerError | backend/src/controllers/auth.ts:31-51 | A wrong password for an existing e-mail is not Unauthorized: the fallback hits the unique index and the duplicate key propagates as a 500 |
| Router.PatternMatches | backend/src/routes/order.ts:31-39 | A pattern matches only a path with as many segments |
| Router.FirstMatch | backend/src/routes/order.ts:19-56 | The chosen route is the first in declaration order that handles the request; none chosen means none handles it |
| Router.Lookup | backend/src/routes/order.ts:19-56 | The chosen route is in the table and handles the request; there is none iff no route handles it |
| Router.LookupFindsFirst | backend/src/routes/order.ts:28-39 | A route preceded only by routes that do not handle the request is the one chosen |
| Router.RunGuards | backend/src/routes/order.ts:50-56 | A chain passes iff every guard passes; otherwise the first failing guard's error is the chain's |
| Router.RunPlan | backend/src/routes/index.ts:33-35 | A plan is rejected iff its guards fail; the not-found fallback is reached iff they pass and no route matched |
| Router.RunGuardsAppend | backend/src/routes/index.ts:27 | The first half of a split chain decides when it fails, otherwise the second half does |
| Router.RepeatedGuardsHarmless | backend/src/routes/index.ts:27 | Running a guard chain twice in a row gives the verdict of running it once |
| Router.EarlierGuardDecides | backend/src/routes/order.ts:50-56 | A request refused by a guard never reaches a later guard; the chain fails with that guard's verdict or an earlier one's |
| Router.AdminGatedExtends | backend/src/routes/index.ts:27 | Gating by `auth` then Admin survives guards added in front and behind |
| Router.GatedRefusesNonAdmin | backend/src/routes/index.ts:27 | A gated chain refuses every request the Admin guard refuses |
| OrderRoutes.CreateNeedsAuthOnly | backend/src/routes/order.ts:19 | Creating an order needs `auth` and a valid body, not the Admin role |
| OrderRoutes.AdminListGated | backend/src/routes/order.ts:22-24 | `/` and `/all` list all orders behind `auth` then Admin |
| OrderRoutes.MeShadowsOrderNumber | backend/src/routes/order.ts:28-36 | `/me` reaches the caller's own list with `auth` alone, although the admin route also matches it |
| OrderRoutes.OrderNumberIsAdminOnly | backend/src/routes/order.ts:31-36 | Any other single segment is an order number, for admins only |
| OrderRoutes.OwnOrdersNeedAuthOnly | backend/src/routes/order.ts:25-39 | `/me/:orderNumber` and `/all/me` need `auth` alone |
| OrderRoutes.UpdateHasNoCsrf | backend/src/routes/order.ts:42-47 | Changing an order needs `auth` and Admin and no CSRF token |
| OrderRoutes.DeleteChecksCsrfFirst | backend/src/routes/order.ts:50-56 | Deleting checks CSRF, then `auth`, then Admin, and a CSRF refusal decides |
| OrderRoutes.AdminHandlersGated | backend/src/routes/order.ts:19-56 | Every admin handler of the order router is behind `auth` then Admin |
| AuthRoutes.NoCsrfGuard | backend/src/routes/auth.ts:16-30 | No auth route checks a CSRF token |
| AuthRoutes.ProfileNeedsAuth | backend/src/routes/auth.ts:16-17 | The profile reads need `auth` and nothing else |
| AuthRoutes.UpdateProfileNeedsAuth | backend/src/routes/auth.ts:18 | The profile update needs `auth` alone |
| AuthRoutes.LoginAndRegisterArePublic | backend/src/routes/auth.ts:21-22 | Login and register run with no guard |
| AuthRoutes.TokenAndLogoutAliases | backend/src/routes/auth.ts:25-30 | `/token` and `/logout` reach the same handler, unguarded, by POST and by GET |
| AuthRoutes.TokenAlias | backend/src/routes/auth.ts:25-29 | POST and GET `/token` both reach the refresh route, which has no guard |
| AuthRoutes.LogoutAlias | backend/src/routes/auth.ts:26-30 | POST and GET `/logout` both reach the logout route, which has no guard |
| ProductRoutes.ListIsPublic | backend/src/routes/product.ts:20 | The product list needs no sign-in |
| ProductRoutes.MutationsAreAdminOnly | backend/src/routes/product.ts:23-49 | Every product mutation runs `auth`, Admin, the id check when there is an id, then the body validator, and none checks a CSRF token |
| ProductRoutes.IdRoutes | backend/src/routes/product.ts:32-49 | PATCH and DELETE on an id reach the update and delete routes |
| ProductRoutes.NoCsrfGuard | backend/src/routes/product.ts:20-49 | No product route checks a CSRF token |
| ProductRoutes.AdminHandlersGated | backend/src/routes/product.ts:20-49 | Every admin handler of the product router is behind `auth` then Admin |
| CustomerRoutes.GuardChains | backend/src/routes/customers.ts:17-40 | Reads need `auth` and Admin; mutations check the CSRF guard first |
| CustomerRoutes.ListRoute | backend/src/routes/customers.ts:17 | The customer list is the first route, behind `auth` and Admin |
| CustomerRoutes.ReadRoute | backend/src/routes/customers.ts:18-23 | One customer by id is the second route, behind `auth` and Admin |
| CustomerRoutes.MutationRoutes | backend/src/routes/customers.ts:26-40 | Updating and deleting a customer run the CSRF guard before `auth` and Admin |
| CustomerRoutes.AdminHandlersGated | backend/src/routes/customers.ts:17-40 | Every handler of the customer router is behind `auth` then Admin |
| IndexRoutes.ResolveFrom | backend/src/routes/index.ts:15-35 | The guards of every entered mount run first; the not-found fallback is reached iff no later mount answers the request |
| IndexRoutes.SkipMounts | backend/src/routes/index.ts:15-30 | Mounts whose prefix does not match are skipped |
| IndexRoutes.ResolveThrough | backend/src/routes/index.ts:15-35 | A path entering exactly one mount runs the mount's guards and then its route's, or ends in not-found after the mount's guards |
| IndexRoutes.AtMostOneMountPrefix | backend/src/routes/index.ts:15-30 | A path entering one mount enters no other |
| IndexRoutes.OrderAliasesAgree | backend/src/routes/index.ts:20-21 | Every request resolves the same under `/orders` and `/order` |
| IndexRoutes.CustomerAliasesAgree | backend/src/routes/index.ts:27-30 | Every request resolves the same under `/customers` and `/users` |
| IndexRoutes.CustomerListChainRunsTwice | backend/src/routes/index.ts:27 | Through `/customers` the `auth`+Admin chain runs twice, which changes no verdict |
| IndexRoutes.UnguardedMounts | backend/src/routes/index.ts:15-24 | `/auth` and `/upload` add no guard of their own |
| IndexRoutes.UploadIsPublic | backend/src/routes/index.ts:24 | Uploading needs no sign-in; the only guard is the multipart parser |
| IndexRoutes.UnknownPrefixNotFound | backend/src/routes/index.ts:33-35 | A path entering no mount ends in not-found with no guard |
| IndexRoutes.GuardsRunBeforeNotFound | backend/src/routes/index.ts:27-35 | An unknown path under `/customers` still runs `auth` and Admin before the not-found fallback |
| IndexRoutes.AdminGating | backend/src/routes/index.ts:15-35 | Every admin handler is reached only through `auth` then Admin |
| IndexRoutes.MountsGated | backend/src/routes/index.ts:15-30 | Every mounted table gates its admin handlers |
| IndexRoutes.ResolveFromGated | backend/src/routes/index.ts:15-35 | Resolving through gated tables yields a gated chain for every admin handler |
| App.StripApi | backend/src/app.ts:117 | A first segment `api` is removed and any other path is unchanged |
| App.Dispatch | backend/src/app.ts:65-119 | A refused origin is answered by the error handler; once the origin passes, OPTIONS is the preflight, then a GET or HEAD of `/__ping` is the health check, then a static file is served, and only a request none of these answer is routed, resolving with the `/api` prefix stripped; each answer holds iff its condition does |
| App.RefusedOriginGetsServerError | backend/src/app.ts:41-43 | A request from an unlisted origin reaches no handler and gets a 500 with the generic text |
| App.ApiPrefixTransparent | backend/src/app.ts:117 | A request under `/api` is routed like the same request without the prefix |
| App.PingOnlyAtRoot | backend/src/app.ts:100-117 | For any allowed origin and non-OPTIONS method, `/__ping` is the health check iff the method is GET or HEAD, and `/api/__ping` ends in not-found for every method unless a static file answers it |
| App.NotFoundResponse | backend/src/routes/index.ts:33-35 | The not-found fallback is answered with 404 and its own text |
| Pagination.ClampLimit | backend/src/controllers/order.ts:35 | The page size is between 1 and 10 and is the request's when that is in range |
| Pagination.LimitOf | backend/src/controllers/order.ts:34-36 | A missing or unreadable limit gives the default; a readable one is clamped to 1..10 |
| Pagination.PageOf | backend/src/controllers/order.ts:38-40 | The page is at least 1, the request's when readable and at least 1, and 1 otherwise |
| Pagination.TotalPages | backend/src/controllers/order.ts:144 | The fewest pages of `limit` items that hold all the items; zero iff there are none |
| Pagination.Slice | backend/src/controllers/order.ts:226 | The slice holds `xs[start+k]` at each position; its length is `end - start` cut to what the list has; a start past the end, or an end before the start, gives nothing |
| Pagination.ItemOnItsPage | backend/src/controllers/order.ts:175-226 | Every item is on the page its position says, and that page is one of the counted pages |
| Pagination.PagesBeyondTheLastAreEmpty | backend/src/controllers/order.ts:224-226 | A page beyond the last counted one is empty |
| Pagination.BoundsMerge | backend/src/controllers/customers.ts:89-101 | Setting the lower and then the upper bound keeps both; neither overwrites the other |
| Validations.NormalizePhone | backend/src/middlewares/validations.ts:48 | Only digits and `+` remain, no longer than the input, and a clean number is unchanged |
| Validations.NormalizePhoneConcat | backend/src/middlewares/validations.ts:48 | Normalising distributes over concatenation |
| Validations.NormalizePhoneCounts | backend/src/middlewares/validations.ts:48 | Each digit and `+` keeps its count and every other character is gone |
| Validations.PhonePattern | backend/src/middlewares/validations.ts:5 | A phone passes iff it is 7 to 15 digits with an optional leading `+` |
| Validations.PhonePlusOnlyInFront | backend/src/middlewares/validations.ts:5 | In a passing phone no `+` occurs after the first position |
| Validations.Validate | backend/src/middlewares/validations.ts:13-155 | A body passes iff every key is known, every required key is present and every value fits its rule, string lengths counted in UTF-16 code units and numbers limited to the safe integers ±(2^53 − 1) as Joi's `number()` requires; refusal is BadRequest; the output has the same keys, with phones normalised, numbers converted, and every other value unchanged |
| Validations.ValidationIsAFixedPoint | backend/src/middlewares/validations.ts:13-155 | Validating a validated body again returns the same body |
| Validations.UnknownKeyRejected | backend/src/middlewares/validations.ts:14 | A body with a key the schema does not name is refused |
| Validations.MissingRequiredRejected | backend/src/middlewares/validations.ts:25 | A body missing a required key is refused |
| Validations.OrderBodyGuarantees | backend/src/middlewares/validations.ts:13-70 | An accepted order body has at least one item, all object ids; a `card` or `online` payment; an e-mail; the normalised phone, which passes the pattern; a non-empty address; a numeric total within the safe integers; and a string comment if any |
| Validations.OrderItemsAndPayment | backend/src/middlewares/validations.ts:15-38 | An accepted order has a non-empty list of object ids and a payment method of the known kinds |
| Validations.OrderContact | backend/src/middlewares/validations.ts:40-61 | An accepted order has an e-mail, the normalised phone (which passes the pattern) and a non-empty address |
| Validations.OrderTotalAndComment | backend/src/middlewares/validations.ts:63-68 | An accepted order has a numeric total within the safe integers, and a comment, if any, is a string |
| Validations.UnsafeTotalRefused | backend/src/middlewares/validations.ts:63-66 | A total beyond ±(2^53 − 1), sent as a number or as numeric text, makes the order body fail with BadRequest (`number.unsafe`) |
| Validations.ValidatedPhoneIsNormal | backend/src/middlewares/validations.ts:45-53 | The phone an accepted order carries is the normalised input, passes the pattern, and normalising it again changes nothing |
| Validations.OrderCommentOptional | backend/src/middlewares/validations.ts:68 | An empty comment is allowed, and so is no comment |
| Validations.OptionalFieldChanges | backend/src/middlewares/validations.ts:13-155 | Dropping an optional key, or giving it any value its rule accepts, keeps an accepted body accepted |
| Validations.PresentFieldPasses | backend/src/middlewares/validations.ts:13-155 | Every key of an accepted body is in the schema; its value passes the key's rule and comes out converted by it |
| Validations.ProductBodyGuarantees | backend/src/middlewares/validations.ts:73-91 | An accepted product has a title of 2 to 30 characters, a category, a description, and a price that is null or a number within the safe integers |
| Validations.ProductUpdateRelaxesCreate | backend/src/middlewares/validations.ts:94-107 | The update schema accepts every body the create schema accepts, and also the empty body |
| Validations.RelaxedSchemaAccepts | backend/src/middlewares/validations.ts:94-107 | A schema with the same keys and rules that requires fewer keys accepts every body the stricter schema accepts |
| Validations.ProductUpdateTitleBound | backend/src/middlewares/validations.ts:96 | An update that carries a title carries one of 2 to 30 characters |
| Validations.UserBodyGuarantees | backend/src/middlewares/validations.ts:123-140 | An accepted user body has a password of at least 6 characters, an e-mail, and a name of 2 to 30 characters if any |
| Validations.AuthenticationHasNoLengthBound | backend/src/middlewares/validations.ts:142-155 | The sign-in schema accepts a one-character password that the user schema refuses |
| Orders.StatusFilter | backend/src/controllers/order.ts:42-48 | A missing status filters nothing; a present one passes iff it is a non-empty word of letters, digits, `_` and `-`; otherwise BadRequest |
| Orders.StatusIsPlainWord | backend/src/controllers/order.ts:43 | An accepted status holds no query or pattern operator |
| Orders.StrictRange | backend/src/controllers/order.ts:50-76 | A present but unreadable bound is BadRequest; otherwise the range holds exactly the present bounds |
| Orders.SearchClauses | backend/src/controllers/order.ts:100-116 | A usable search gives a title clause with the escaped text, plus an order-number clause iff the text is a number |
| Orders.SearchPatternIsLiteral | backend/src/controllers/order.ts:103 | The admin listing's title pattern is always literal |
| Orders.SortOf | backend/src/controllers/order.ts:118-121 | No sort iff the field or the order is empty text; descending iff the order is missing or `desc`; the field defaults to `createdAt` |
| Orders.SortFieldUnchecked | backend/src/controllers/order.ts:118-121 | Any field name is used as given, with no whitelist |
| Orders.OrdersListing | backend/src/controllers/order.ts:13-128 | The listing is refused with BadRequest iff the status or a present amount or date bound is invalid; otherwise the page size is the query's limit clamped to 1..10 with default 10, the page is the query's page with default 1, skip is `(page-1)*limit`, the ranges and status filter are the parsed ones, the search is the escaped-title clauses and the sort is the query's |
| Orders.BadAmountRefused | backend/src/controllers/order.ts:50-55 | An unreadable amount bound is refused whatever the other parameters |
| Orders.KeepMatching | backend/src/controllers/order.ts:208-219 | An order is kept iff it matches the search, and no order is added |
| Orders.KeepMatchingConcat | backend/src/controllers/order.ts:208-219 | Filtering keeps order: it distributes over concatenation |
| Orders.OwnOrdersWith | backend/src/controllers/order.ts:160-240 | A missing account is NotFound; otherwise the listing fails iff the search is used and its pattern does not compile; on success the total counts exactly the matching orders and the page is their slice from `(page-1)*limit` of length `limit` |
| Orders.OwnPageIsOwnOrders | backend/src/controllers/order.ts:196-228 | The page is at most the page size, holds only the caller's orders, each matching the search when there is one, and counts every order when there is none |
| Orders.OwnOrders | backend/src/controllers/order.ts:198-202 | As written, a missing account is NotFound, the listing fails iff the raw search text does not compile as a pattern, and otherwise the page is the slice of the orders matching the raw pattern |
| Orders.OwnOrdersEscaped | backend/src/controllers/order.ts:198-202 | Corrected, a missing account is NotFound, the listing fails iff the escaped search text does not compile, and otherwise the page is the slice of the orders matching the escaped pattern |
| Orders.PlusSearchFails | backend/src/controllers/order.ts:201-202 | As written, searching one's own orders for `+1` throws a pattern error, answered with 500 |
| Orders.PlusOneIsSearched | backend/src/controllers/order.ts:198-200 | `+1` is a search the own listing acts on: it is truthy and survives trimming |
| Orders.UnpaddedTextIsSearched | backend/src/controllers/order.ts:198-200 | A text of 1 to 32 characters that neither starts nor ends with whitespace is used as it stands |
| Orders.TrimmedTextIsSearched | backend/src/controllers/order.ts:198-200 | A non-empty text of at most 64 code units that trimming leaves alone is used as it stands |
| Orders.EscapedSearchNeverFails | backend/src/controllers/order.ts:202 | With the text escaped, the listing fails only for a missing account when literal patterns compile |
| Orders.EscapingKeepsPlainSearches | backend/src/controllers/order.ts:202 | On a search without pattern characters, the corrected listing equals the original |
| Orders.OrderByNumber | backend/src/controllers/order.ts:243-266 | Found gives the order; not found is NotFound; a bad id is BadRequest |
| Orders.OrderForCustomer | backend/src/controllers/order.ts:268-298 | Succeeds iff the order is found and belongs to the caller; someone else's order is NotFound; an order without a customer is unmapped |
| Orders.ForeignOrderLooksMissing | backend/src/controllers/order.ts:285-290 | Someone else's order is answered exactly like a missing one |
| Orders.CustomerViewWithinAdminView | backend/src/controllers/order.ts:243-298 | Whatever a customer may see by number, the admin sees the same |
| Orders.UpdateOrder | backend/src/controllers/order.ts:360-389 | The update succeeds iff the order is found and the status is valid, and returns that order; an invalid status is BadRequest before the lookup, a malformed number is BadRequest, and a missing order is NotFound |
| Orders.DeleteOrder | backend/src/controllers/order.ts:392-413 | The delete succeeds iff the order is found, and returns that order; a malformed id is BadRequest and a missing order is NotFound |
| Orders.Basket | backend/src/controllers/order.ts:322-331 | The basket is built iff every item is in the catalogue with a price, and then holds those prices in item order; otherwise BadRequest |
| Orders.BasketSumIsTotalPrice | backend/src/controllers/order.ts:332 | The basket's sum is the independently defined total price of the items |
| Orders.CreateOrder | backend/src/controllers/order.ts:301-357 | An order is created iff its phone passes once normalised, every item is for sale, the total equals the prices' sum, and the schema accepts it; the order is the caller's and holds the items; every refusal is BadRequest |
| Orders.UnsellableItemRefused | backend/src/controllers/order.ts:322-331 | One item that is missing or not for sale sinks the whole order |
| Orders.ValidatedPhonePasses | backend/src/controllers/order.ts:314-317 | A body that passed the order validator passes the handler's own phone check, with the same number |
| Customers.SortFieldOf | backend/src/controllers/customers.ts:30-46 | The sort field is always whitelisted: `sortField` when listed, else `sort` when `sortField` is missing and `sort` is listed, else `createdAt` |
| Customers.DirectionOf | backend/src/controllers/customers.ts:33-48 | Ascending iff the first present of `sortOrder`, `order` and `desc`, lower-cased, is `asc` |
| Customers.AscendingAnyCase | backend/src/controllers/customers.ts:47-48 | `asc` in any letter case sorts ascending, from either parameter; the default is descending |
| Customers.DateRead | backend/src/controllers/customers.ts:59-87 | A falsy or unreadable date gives no bound; an upper bound is moved to the end of its day |
| Customers.LenientRange | backend/src/controllers/customers.ts:59-115 | The range holds exactly the bounds that could be read |
| Customers.SearchClauses | backend/src/controllers/customers.ts:117-138 | A usable search gives a name clause with the escaped text, plus a last-order clause iff some order's address matches |
| Customers.CustomersListing | backend/src/controllers/customers.ts:9-162 | The listing never fails; the page size is 1 to 10; skip is `(page-1)*limit`; the sort is `SortFieldOf` and `DirectionOf` of the parameters, so the field is whitelisted; each range holds the readable bounds; the search clauses are as above |
| Customers.UnreadableBoundIgnored | backend/src/controllers/customers.ts:89-101 | An unreadable bound gives the same listing as leaving it out |
| Customers.UnknownSortFieldFallsBack | backend/src/controllers/customers.ts:44-46 | An unlisted sort field falls back to `createdAt` |
| Customers.SortFieldPreferred | backend/src/controllers/customers.ts:30-46 | `sortField` wins over `sort`, and an injected field such as `$where` is replaced by `createdAt` |
| Customers.CustomerById | backend/src/controllers/customers.ts:179-193 | As written, a found customer is returned, an unknown id answers 200 with null, and a bad id is unmapped |
| Customers.CustomerWrite | backend/src/controllers/customers.ts:196-240 | Update and delete succeed iff the customer is found; an unknown id is NotFound |
| Customers.UnknownCustomerReadSucceeds | backend/src/controllers/customers.ts:185-189 | As written, reading an unknown customer succeeds where writing it is NotFound |
| Customers.CustomerByIdChecked | backend/src/controllers/customers.ts:179-193 | Corrected, the read succeeds iff the customer is found, and an unknown id is NotFound |
| Customers.ReadAgreesWithWrites | backend/src/controllers/customers.ts:179-240 | The corrected read fails exactly when the writes do, with the same error, and returns what the original read returns |

## Left out

- Number and Date parsing. `Number(x)`, `new Date(x)` and `setHours(23, 59, 59, 999)` are
  functions in `Coercions`. Numbers are integers, and floating point is not modelled.
- JSON numbers in bodies are integers, so a fractional total is not represented.
- Letter case. `toLowerCase` and the case-insensitive route matching are ASCII-only. For
  comparisons against the source's literals, which are all ASCII, that is exact.
- Bytes. UTF-8 decoding of uploaded files treats bytes above 0x7F as the replacement
  character. A byte-order mark and multi-byte characters are not modelled.
- URL handling. Paths arrive already split into decoded segments; percent-decoding,
  trailing slashes and query-string parsing are Express's and are not modelled.
- Middleware without a decision to model: helmet headers, the rate limiter, the body size
  limits, cookie-parser and express-mongo-sanitize.
- Static files. Whether `serverStatic.ts` finds a file is a boolean on the request.
- MongoDB. Aggregation, `populate`, `countDocuments`, sorting and the `$or` filters are
  described as filter values, not executed. Per-order product lookup is a set of matching
  titles.
- ObjectId equality is plain string equality. ObjectId validity is a parameter.
- Regular expressions. Only the bare-quantifier rule of the ECMAScript pattern grammar is
  modelled; whether any other pattern compiles is a parameter.
- Outside collaborators. jwt signing and verification, the HMAC and SHA-256 digests,
  bcrypt, `findUserByCredentials`, the `auth` and role-guard middlewares, Joi's e-mail check
  and `csrfIfNotTest` are parameters, since their code is not part of this model.
- Handlers that only read or write the store: `getCurrentUser`, `getCurrentUserRoles` and
  `updateCurrentUser` in `auth.ts`, and the product controller that `routes/product.ts`
  mounts. The model routes to them but does not model their bodies.
- `routes/upload.ts` is modelled as the upload mount's one-route table inside
  `IndexRoutes`.
- Joi error messages, `abortEarly` and celebrate's error body. A refusal is the 400 status.
- The random bytes, the working directory, `fs.unlink`, `fs.mkdir` and `fs.rename` of the
  upload are not modelled. The random bytes are an argument; the file moves are effects
  without a decision.
- Concurrency. Concurrent requests and the timing of the asynchronous store calls are not
  modelled.
- Cors.ExplicitHeaders: never answering `*` holds only when `*` is not itself on the list,
  that is, when ORIGIN_ALLOW is not `*`.
- Csrf.Protect: the `csrf-csrf` library's own check is not modelled. The library issues a random
  token, stores its hash in the CSRF cookie, and refuses a request whose cookie is missing or does
  not match the submitted token. The model takes the expected token to be
  `sign(secret, sessionIdentifier)` and compares only the submitted token with it. So it accepts
  a request with no CSRF cookie, which the library refuses.
- Upload.SafeExt: lower-cases ASCII letters only. `toLowerCase` is full Unicode, so `.ÄPNG`
  is stored as `.Äpng` where the source stores `.äpng`. A character whose lower case is longer
  (`İ` becomes two code units) also shifts the 10-unit test. Unicode case tables are not
  modelled.
- ParseQuery.SafeString: when the 64-unit cut falls inside a surrogate pair, JavaScript keeps
  a lone high surrogate, which a Dafny string cannot hold. The model drops the whole pair, so
  its result is one code unit shorter.
- ParseQuery.EscapeRegexForSearch: the same cut inside a surrogate pair drops the whole pair,
  where `slice(0, 64)` keeps the lone high surrogate.

## Findings

| source | as written | input that shows it | evidently intended | confidence | as-written member | corrected member |
|---|---|---|---|---|---|---|
| backend/src/controllers/auth.ts:167-171 | The refresh-token removal filters the fingerprint out without checking that it was listed. A token already rotated or logged out still refreshes, and mints a fresh pair. | A refresh cookie used once on `/auth/token`, or after `/auth/logout`, sent again to `/auth/token` | A token the account does not list is refused with Unauthorized, so each refresh token is single-use | not executed | Session.RefreshAccessToken, Session.RefreshAfterLogoutSucceeds, Session.RefreshTokenReplays | Session.RefreshRotating, Session.RotationIsSingleUse, Session.LogoutThenRefreshRefused |
| backend/src/controllers/order.ts:202 | The caller's own listing builds its pattern from the raw search text. The admin listing escapes it. | `GET /orders/all/me?search=%2B1`: `+1` is a bare quantifier, the pattern constructor throws, and the answer is 500 | The escaped, truncated text is used, as in the admin listing at line 103 | not executed | Orders.OwnOrders, Orders.PlusSearchFails | Orders.OwnOrdersEscaped, Orders.EscapedSearchNeverFails |
| backend/src/controllers/customers.ts:185-189 | `getCustomerById` has no `orFail`, unlike update and delete, so an unknown id answers 200 with a null body | `GET /customers/<an unused valid ObjectId>` | An unknown customer is NotFound, as in `updateCustomer` and `deleteCustomer` | not executed | Customers.CustomerById, Customers.UnknownCustomerReadSucceeds | Customers.CustomerByIdChecked, Customers.ReadAgreesWithWrites |
