/**
 * `backend/src/controllers/order.ts`: the decisions the order handlers make before and
 * around their queries. The admin listing turns its query string into filters, a sort
 * and a page window, or a 400. The caller's own listing filters and slices the orders
 * of the signed-in user. The lookups decide between the order, 404 and 400.
 * `createOrder` checks the phone, the basket and the total before it builds the order.
 */
module Orders {
  import opened Wrappers
  import opened Errors
  import opened JsValues
  import JsText
  import ParseQuery
  import Pagination
  import Validations

  type UserId = string

  /** An order as the handlers see it once populated; `customer` is None when the referenced user is gone. */
  datatype Order = Order(number: int, customer: Option<UserId>, products: seq<string>)

  // ---------------------------------------------------------------------------------
  // GET /orders (admin listing)

  /** The query parameters `getOrders` reads. */
  datatype OrdersQuery = OrdersQuery(
    page: QueryValue, limit: QueryValue,
    sortField: QueryValue, sortOrder: QueryValue,
    status: QueryValue,
    totalAmountFrom: QueryValue, totalAmountTo: QueryValue,
    orderDateFrom: QueryValue, orderDateTo: QueryValue,
    search: QueryValue)

  /** One alternative of the search `$or`. */
  datatype SearchClause = TitleMatches(pattern: string) | OrderNumberIs(n: int)

  datatype Sort = Sort(field: string, direction: int)

  datatype OrderFilters = OrderFilters(
    status: Option<string>,
    totalAmount: Option<Pagination.Range>,
    createdAt: Option<Pagination.Range>,
    search: seq<SearchClause>)  // empty: no `$or`

  /** What the aggregation runs with: the `$match`, the `$sort`, and the `$skip`/`$limit` window. */
  datatype Listing = Listing(filters: OrderFilters, sort: Option<Sort>, page: int, limit: int, skip: nat)

  predicate IsStatusChar(c: char)
  {
    'a' <= c <= 'z' || 'A' <= c <= 'Z' || JsText.IsDigit(c) || c == '_' || c == '-'
  }

  /** `typeof status === 'string' && /^[a-zA-Z0-9_-]+$/.test(status)`. */
  predicate StatusOk(v: QueryValue)
  {
    v.Text? && |v.s| > 0 && forall k :: 0 <= k < |v.s| ==> IsStatusChar(v.s[k])
  }

  /** The status filter: none when the parameter is absent, the string when it passes, 400 otherwise. */
  function StatusFilter(v: QueryValue): (r: Result<Option<string>>)
    ensures v.Missing? ==> r == Ok(None)
    ensures !v.Missing? ==> (r.Ok? <==> StatusOk(v))
    ensures r.Err? ==> r.error == BadRequest
    ensures r.Ok? && r.value.Some? ==> v == Text(r.value.value) && r.value.value != ""
  {
    if v.Missing? then Ok(None)
    else if StatusOk(v) then Ok(Some(v.s))
    else Err(BadRequest)
  }

  /** An accepted status can carry neither a query operator nor a pattern: no `$`, `.`, `{` or space. */
  lemma StatusIsPlainWord(v: QueryValue)
    requires StatusFilter(v).Ok? && StatusFilter(v).value.Some?
    ensures forall c :: c in StatusFilter(v).value.value ==> c !in "$.{} *+?()[]\\|^"
  {
  }

  /** One bound of a strict range: an absent parameter leaves the range, an unreadable one is 400. */
  function StrictBound(range: Option<Pagination.Range>, v: QueryValue, read: Option<int>, lower: bool): (r: Result<Option<Pagination.Range>>)
    ensures v.Missing? ==> r == Ok(range)
    ensures !v.Missing? ==> (r.Ok? <==> read.Some?)
    ensures r.Err? ==> r.error == BadRequest
    ensures !v.Missing? && read.Some? && lower ==> r == Ok(Pagination.WithLower(range, read.value))
    ensures !v.Missing? && read.Some? && !lower ==> r == Ok(Pagination.WithUpper(range, read.value))
  {
    if v.Missing? then Ok(range)
    else match read
      case None => Err(BadRequest)
      case Some(n) => Ok(if lower then Pagination.WithLower(range, n) else Pagination.WithUpper(range, n))
  }

  /** The lower then the upper bound, as `getOrders` applies them; neither overwrites the other. */
  function StrictRange(from: QueryValue, fromRead: Option<int>, to: QueryValue, toRead: Option<int>): (r: Result<Option<Pagination.Range>>)
    ensures r.Ok? <==> (from.Missing? || fromRead.Some?) && (to.Missing? || toRead.Some?)
    ensures r.Err? ==> r.error == BadRequest
    ensures r.Ok? ==> r.value == Pagination.RangeOf(if from.Missing? then None else fromRead, if to.Missing? then None else toRead)
  {
    var lower :- StrictBound(None, from, fromRead, true);
    StrictBound(lower, to, toRead, false)
  }

  /** Whether the search parameter is used: truthy, and non-empty once trimmed and cut to 64. */
  function SearchText(search: QueryValue): (r: Option<string>)
    ensures r.Some? ==> search.Text? && r.value != "" && JsText.Utf16Length(r.value) <= 64
    ensures r.Some? ==> ParseQuery.SafeString(search, 64) == Some(r.value)
    ensures r.None? <==> !QueryTruthy(search) || ParseQuery.SafeString(search, 64).None? || ParseQuery.SafeString(search, 64) == Some("")
  {
    if !QueryTruthy(search) then None
    else match ParseQuery.SafeString(search, 64)
      case Some(q) => if q != "" then Some(q) else None
      case None => None
  }

  /** The search `$or`: the escaped title pattern, and the order number when the text is a number. */
  function SearchClauses(search: QueryValue, c: Coercions): (r: seq<SearchClause>)
    ensures r == [] <==> SearchText(search).None?
    ensures r != [] ==> r[0] == TitleMatches(ParseQuery.EscapeRegexForSearch(SearchText(search).value, 64))
    ensures r != [] ==> (|r| == 2 <==> c.toNumber(SearchText(search).value).Some?) && 1 <= |r| <= 2
    ensures |r| == 2 ==> r[1] == OrderNumberIs(c.toNumber(SearchText(search).value).value)
  {
    match SearchText(search)
    case None => []
    case Some(q) =>
      var title := TitleMatches(ParseQuery.EscapeRegexForSearch(q, 64));
      match c.toNumber(q)
      case Some(n) => [title, OrderNumberIs(n)]
      case None => [title]
  }

  /** The title pattern matches the search text literally: it is an escaped pattern that reads back as that text. */
  lemma SearchPatternIsLiteral(search: QueryValue, c: Coercions)
    requires SearchClauses(search, c) != []
    ensures var p := SearchClauses(search, c)[0].pattern;
      ParseQuery.IsLiteralPattern(p) && ParseQuery.Unescape(p) == SearchText(search).value
  {
  }

  /** `{ [sortField]: sortOrder === 'desc' ? -1 : 1 }`, after the defaults, when both are truthy. */
  function SortOf(field: QueryValue, order: QueryValue): (r: Option<Sort>)
    ensures r.None? <==> field == Text("") || order == Text("")
    ensures r.Some? ==> (r.value.direction == -1 <==> order.Missing? || order == Text("desc"))
    ensures r.Some? ==> r.value.direction == 1 || r.value.direction == -1
    ensures r.Some? ==> r.value.field == (if field.Missing? then "createdAt" else QueryString(field))
  {
    var f := Coalesce(field, Text("createdAt"));
    var o := Coalesce(order, Text("desc"));
    if QueryTruthy(f) && QueryTruthy(o) then
      Some(Sort(QueryString(f), if o == Text("desc") then -1 else 1))
    else None
  }

  /** The admin listing sorts by whatever field the query names: there is no whitelist. */
  lemma SortFieldUnchecked(field: string)
    requires field != ""
    ensures SortOf(Text(field), Missing) == Some(Sort(field, -1))
    ensures SortOf(Missing, Missing) == Some(Sort("createdAt", -1))
  {
  }

  /**
   * `getOrders` up to the query: page size and page, then the status, amount and date
   * checks in source order (any one of which may answer 400), the search, and the sort.
   */
  function OrdersListing(q: OrdersQuery, c: Coercions): (r: Result<Listing>)
    ensures r.Err? ==> r.error == BadRequest
    ensures r.Ok? <==>
      && (q.status.Missing? || StatusOk(q.status))
      && (q.totalAmountFrom.Missing? || QueryNumber(q.totalAmountFrom, c).Some?)
      && (q.totalAmountTo.Missing? || QueryNumber(q.totalAmountTo, c).Some?)
      && (q.orderDateFrom.Missing? || QueryDate(q.orderDateFrom, c).Some?)
      && (q.orderDateTo.Missing? || QueryDate(q.orderDateTo, c).Some?)
    ensures r.Ok? ==> r.value.limit == Pagination.LimitOf(q.limit, 10, c) && r.value.page == Pagination.PageOf(q.page, c)
    ensures r.Ok? ==> r.value.filters.search == SearchClauses(q.search, c)
    ensures r.Ok? ==> r.value.sort == SortOf(q.sortField, q.sortOrder)
    ensures r.Ok? ==> 1 <= r.value.limit <= Pagination.MaxLimit && r.value.page >= 1
    ensures r.Ok? ==> r.value.skip == (r.value.page - 1) * r.value.limit
    ensures r.Ok? ==> (r.value.filters.totalAmount ==
      Pagination.RangeOf(QueryNumber(q.totalAmountFrom, c), QueryNumber(q.totalAmountTo, c)))
    ensures r.Ok? ==> (r.value.filters.createdAt ==
      Pagination.RangeOf(QueryDate(q.orderDateFrom, c), QueryDate(q.orderDateTo, c)))
    ensures r.Ok? ==> r.value.filters.status == (if q.status.Missing? then None else Some(q.status.s))
  {
    var limit := Pagination.LimitOf(q.limit, 10, c);
    var page := Pagination.PageOf(q.page, c);
    var status :- StatusFilter(q.status);
    var amount :- StrictRange(q.totalAmountFrom, QueryNumber(q.totalAmountFrom, c), q.totalAmountTo, QueryNumber(q.totalAmountTo, c));
    var created :- StrictRange(q.orderDateFrom, QueryDate(q.orderDateFrom, c), q.orderDateTo, QueryDate(q.orderDateTo, c));
    var filters := OrderFilters(status, amount, created, SearchClauses(q.search, c));
    Ok(Listing(filters, SortOf(q.sortField, q.sortOrder), page, limit, Pagination.Skip(page, limit)))
  }

  /** An unreadable amount bound is refused even when every other parameter is fine. */
  lemma BadAmountRefused(q: OrdersQuery, c: Coercions)
    requires !q.totalAmountFrom.Missing? && QueryNumber(q.totalAmountFrom, c).None?
    ensures OrdersListing(q, c) == Err(BadRequest)
  {
  }

  // ---------------------------------------------------------------------------------
  // GET /orders/all/me (the caller's own orders)

  datatype OwnQuery = OwnQuery(search: QueryValue, page: QueryValue, limit: QueryValue)

  /** The caller's page and its pagination block. */
  datatype OwnPage = OwnPage(orders: seq<Order>, totalOrders: nat, totalPages: nat, currentPage: int, pageSize: int)

  /**
   * The title search behind the caller's own listing: whether `new RegExp(pattern, 'i')`
   * compiles, and the ids of the products `Product.find({ title })` returns for it.
   */
  datatype TitleIndex = TitleIndex(compiles: string -> bool, matching: string -> set<string>)

  /** The filter of the caller's own listing: the order number equals `Number(search)`, or some product matched. */
  predicate SearchMatches(o: Order, number: Option<int>, hits: set<string>)
  {
    (number.Some? && o.number == number.value) || exists i :: 0 <= i < |o.products| && o.products[i] in hits
  }

  /** `orders.filter(...)`: the matching orders, in their order. */
  function KeepMatching(orders: seq<Order>, number: Option<int>, hits: set<string>): (r: seq<Order>)
    ensures |r| <= |orders|
    ensures forall o :: o in r <==> o in orders && SearchMatches(o, number, hits)
  {
    if |orders| == 0 then []
    else (if SearchMatches(orders[0], number, hits) then [orders[0]] else []) + KeepMatching(orders[1..], number, hits)
  }

  /** Filtering keeps the relative order: filtering a concatenation filters each part. */
  lemma {:induction false} KeepMatchingConcat(a: seq<Order>, b: seq<Order>, number: Option<int>, hits: set<string>)
    ensures KeepMatching(a + b, number, hits) == KeepMatching(a, number, hits) + KeepMatching(b, number, hits)
  {
    if |a| == 0 {
      assert a + b == b;
    } else {
      assert (a + b)[0] == a[0];
      assert (a + b)[1..] == a[1..] + b;
      KeepMatchingConcat(a[1..], b, number, hits);
    }
  }

  /**
   * The orders the caller's listing counts: every order without a usable search, else
   * those whose number is the search read as a number or that hold a matched product.
   */
  function OwnMatches(orders: seq<Order>, q: OwnQuery, c: Coercions, titles: TitleIndex, escaped: bool): seq<Order>
  {
    match SearchText(q.search)
    case None => orders
    case Some(_) => KeepMatching(orders, c.toNumber(q.search.s), titles.matching(OwnPattern(q.search, escaped)))
  }

  /**
   * `getOrdersCurrentUser`. `account` is the caller's populated orders, or None when
   * `User.findById(...).orFail` finds no account. With `escaped` false the title pattern
   * is the raw search text, as the handler builds it; with `escaped` true it is the
   * escaped, trimmed text, as the admin listing builds it.
   */
  function OwnOrdersWith(account: Option<seq<Order>>, q: OwnQuery, c: Coercions, titles: TitleIndex, escaped: bool): (r: Result<OwnPage>)
    ensures account.None? ==> r == Err(NotFound)
    ensures account.Some? ==> (r.Err? <==> SearchText(q.search).Some? && !titles.compiles(OwnPattern(q.search, escaped)))
    ensures account.Some? && r.Err? ==> r.error == Unmapped(PatternSyntax)
    ensures r.Ok? ==> r.value.pageSize == Pagination.LimitOf(q.limit, 5, c) && r.value.currentPage == Pagination.PageOf(q.page, c)
    ensures r.Ok? ==> var matches := OwnMatches(account.value, q, c, titles, escaped);
              && r.value.totalOrders == |matches|
              && r.value.orders == Pagination.Page(matches, r.value.currentPage, r.value.pageSize)
    ensures r.Ok? ==> r.value.totalPages == Pagination.TotalPages(r.value.totalOrders, r.value.pageSize)
  {
    var orders :- (if account.None? then Err(NotFound) else Ok(account.value));
    var limit := Pagination.LimitOf(q.limit, 5, c);
    var page := Pagination.PageOf(q.page, c);
    var filtered :-
      match SearchText(q.search)
      case None => Ok(orders)
      case Some(_) =>
        var pattern := OwnPattern(q.search, escaped);
        if !titles.compiles(pattern) then Err(Unmapped(PatternSyntax))
        else Ok(KeepMatching(orders, c.toNumber(q.search.s), titles.matching(pattern)));
    Ok(OwnPage(Pagination.Page(filtered, page, limit), |filtered|, Pagination.TotalPages(|filtered|, limit), page, limit))
  }

  /**
   * What the caller's page holds: at most a page of the caller's own orders, each one
   * matching the search when there is one, and every order when there is none.
   */
  lemma {:induction false} OwnPageIsOwnOrders(account: Option<seq<Order>>, q: OwnQuery, c: Coercions, titles: TitleIndex, escaped: bool)
    requires OwnOrdersWith(account, q, c, titles, escaped).Ok?
    ensures var p := OwnOrdersWith(account, q, c, titles, escaped).value;
      && account.Some? && |p.orders| <= p.pageSize <= Pagination.MaxLimit && p.totalOrders <= |account.value|
      && (forall o :: o in p.orders ==> o in account.value)
      && (SearchText(q.search).Some? ==> forall o :: o in p.orders ==>
            SearchMatches(o, c.toNumber(q.search.s), titles.matching(OwnPattern(q.search, escaped))))
      && (SearchText(q.search).None? ==> p.totalOrders == |account.value|)
  {
    var p := OwnOrdersWith(account, q, c, titles, escaped).value;
    var matches := OwnMatches(account.value, q, c, titles, escaped);
    forall o | o in p.orders
      ensures o in matches
    {
      var k :| 0 <= k < |p.orders| && p.orders[k] == o;
    }
  }

  /** The pattern handed to `new RegExp`: the raw text, or the escaped, trimmed text. */
  function OwnPattern(search: QueryValue, escaped: bool): string
  {
    if escaped then
      match SearchText(search)
      case Some(q) => ParseQuery.EscapeRegexForSearch(q, 64)
      case None => ""
    else QueryString(search)
  }

  /** `getOrdersCurrentUser` as written: the raw search text becomes the pattern. */
  function OwnOrders(account: Option<seq<Order>>, q: OwnQuery, c: Coercions, titles: TitleIndex): (r: Result<OwnPage>)
    ensures account.None? ==> r == Err(NotFound)
    ensures account.Some? ==> (r.Err? <==> SearchText(q.search).Some? && !titles.compiles(q.search.s))
    ensures account.Some? && r.Err? ==> r.error == Unmapped(PatternSyntax)
    ensures r.Ok? ==> r.value.pageSize == Pagination.LimitOf(q.limit, 5, c) && r.value.currentPage == Pagination.PageOf(q.page, c)
    ensures r.Ok? ==> var matches := OwnMatches(account.value, q, c, titles, false);
              && r.value.totalOrders == |matches|
              && r.value.orders == Pagination.Page(matches, r.value.currentPage, r.value.pageSize)
  {
    OwnOrdersWith(account, q, c, titles, false)
  }

  /** The caller's own listing with the search text escaped before it becomes a pattern. */
  function OwnOrdersEscaped(account: Option<seq<Order>>, q: OwnQuery, c: Coercions, titles: TitleIndex): (r: Result<OwnPage>)
    ensures account.None? ==> r == Err(NotFound)
    ensures account.Some? ==> (r.Err? <==>
              SearchText(q.search).Some? && !titles.compiles(ParseQuery.EscapeRegexForSearch(SearchText(q.search).value, 64)))
    ensures account.Some? && r.Err? ==> r.error == Unmapped(PatternSyntax)
    ensures r.Ok? ==> r.value.pageSize == Pagination.LimitOf(q.limit, 5, c) && r.value.currentPage == Pagination.PageOf(q.page, c)
    ensures r.Ok? ==> var matches := OwnMatches(account.value, q, c, titles, true);
              && r.value.totalOrders == |matches|
              && r.value.orders == Pagination.Page(matches, r.value.currentPage, r.value.pageSize)
  {
    OwnOrdersWith(account, q, c, titles, true)
  }

  /**
   * The rule of the ECMAScript pattern grammar this finding rests on: a quantifier with
   * nothing before it (`*`, `+` or `?` first) does not compile.
   */
  ghost predicate RejectsBareQuantifier(titles: TitleIndex)
  {
    forall p :: |p| > 0 && p[0] in "*+?" ==> !titles.compiles(p)
  }

  /** As written, searching one's own orders for `+1` throws, which the error handler answers with 500. */
  lemma {:induction false} PlusSearchFails(orders: seq<Order>, c: Coercions, titles: TitleIndex)
    requires RejectsBareQuantifier(titles)
    ensures OwnOrders(Some(orders), OwnQuery(Text("+1"), Missing, Missing), c, titles) == Err(Unmapped(PatternSyntax))
  {
    PlusOneIsSearched();
    assert !titles.compiles("+1") by {
      assert "+1"[0] in "*+?";
    }
  }

  /** `+1` is a search the listing uses, unchanged by trimming. */
  lemma PlusOneIsSearched()
    ensures SearchText(Text("+1")) == Some("+1")
  {
    UnpaddedTextIsSearched("+1");
  }

  /** A short text that neither starts nor ends with whitespace is searched as it stands. */
  lemma UnpaddedTextIsSearched(s: string)
    requires 0 < |s| <= 32 && !JsText.IsJsWhitespace(s[0]) && !JsText.IsJsWhitespace(s[|s| - 1])
    ensures SearchText(Text(s)) == Some(s)
  {
    JsText.TrimKeepsEdges(s);
    TrimmedTextIsSearched(s);
  }

  /** A non-empty text of at most 64 code units that trimming leaves alone is searched as it stands. */
  lemma TrimmedTextIsSearched(s: string)
    requires JsText.Trim(s) == s && 0 < |s| && JsText.Utf16Length(s) <= 64
    ensures SearchText(Text(s)) == Some(s)
  {
    assert ParseQuery.SafeString(Text(s), 64) == Some(s);
  }

  /**
   * With the text escaped, every search compiles as long as literal patterns do, so the
   * listing fails only when the caller's account is gone.
   */
  lemma {:induction false} EscapedSearchNeverFails(account: Option<seq<Order>>, q: OwnQuery, c: Coercions, titles: TitleIndex)
    requires forall p :: ParseQuery.IsLiteralPattern(p) ==> titles.compiles(p)
    ensures OwnOrdersEscaped(account, q, c, titles).Ok? <==> account.Some?
  {
  }

  /** On a trimmed search without pattern characters, escaping changes nothing: both listings agree. */
  lemma {:induction false} EscapingKeepsPlainSearches(account: Option<seq<Order>>, q: OwnQuery, c: Coercions, titles: TitleIndex, s: string)
    requires q.search == Text(s) && SearchText(q.search) == Some(s)
    requires forall k :: 0 <= k < |s| ==> !ParseQuery.IsRegexMeta(s[k])
    ensures OwnOrdersEscaped(account, q, c, titles) == OwnOrders(account, q, c, titles)
  {
    ParseQuery.EscapePlainIsIdentity(s);
    JsText.Utf16PrefixOfShort(s, 64);
  }

  // ---------------------------------------------------------------------------------
  // Lookups by number, update and delete

  /** What `Order.findOne({ orderNumber })` gives: the order, nothing, or a CastError for a non-numeric number. */
  datatype Lookup = Found(order: Order) | NotThere | CastFailed

  /** `getOrderByNumber` (admin): any order, 404 when missing, 400 for a malformed number. */
  function OrderByNumber(found: Lookup): (r: Result<Order>)
    ensures r.Ok? <==> found.Found?
    ensures r.Ok? ==> r.value == found.order
    ensures found.NotThere? ==> r == Err(NotFound)
    ensures found.CastFailed? ==> r == Err(BadRequest)
  {
    match found
    case Found(o) => Ok(o)
    case NotThere => Err(NotFound)
    case CastFailed => Err(BadRequest)
  }

  /**
   * `getOrderCurrentUserByNumber`: the caller's own order; someone else's order is
   * answered as if it did not exist. An order whose customer is gone throws on
   * `order.customer._id`.
   */
  function OrderForCustomer(found: Lookup, user: UserId): (r: Result<Order>)
    ensures r.Ok? <==> found.Found? && found.order.customer == Some(user)
    ensures r.Ok? ==> r.value == found.order
    ensures found.NotThere? ==> r == Err(NotFound)
    ensures found.CastFailed? ==> r == Err(BadRequest)
    ensures found.Found? && found.order.customer.None? ==> r == Err(Unmapped(TypeFailure))
    ensures found.Found? && found.order.customer.Some? && found.order.customer.value != user ==> r == Err(NotFound)
  {
    match found
    case Found(o) =>
      (match o.customer
       case None => Err(Unmapped(TypeFailure))
       case Some(owner) => if owner == user then Ok(o) else Err(NotFound))
    case NotThere => Err(NotFound)
    case CastFailed => Err(BadRequest)
  }

  /** Another customer's order is indistinguishable from a missing one. */
  lemma ForeignOrderLooksMissing(o: Order, user: UserId)
    requires o.customer.Some? && o.customer.value != user
    ensures OrderForCustomer(Found(o), user) == OrderForCustomer(NotThere, user) == Err(NotFound)
  {
  }

  /** What a customer may see by number, the admin sees identically. */
  lemma CustomerViewWithinAdminView(found: Lookup, user: UserId)
    ensures OrderForCustomer(found, user).Ok? ==> OrderByNumber(found) == OrderForCustomer(found, user)
    ensures found.Found? ==> OrderByNumber(found).Ok?
  {
  }

  /** `updateOrder`: a status the order schema refuses is 400, like a malformed number; a missing order is 404. */
  function UpdateOrder(found: Lookup, statusValid: bool): (r: Result<Order>)
    ensures r.Ok? <==> found.Found? && statusValid
    ensures r.Ok? ==> r.value == found.order
    ensures !statusValid ==> r == Err(BadRequest)
    ensures found.CastFailed? ==> r == Err(BadRequest)
    ensures statusValid && found.NotThere? ==> r == Err(NotFound)
  {
    if !statusValid then Err(BadRequest)
    else OrderByNumber(found)
  }

  /** `deleteOrder`: 404 for a missing order, 400 for a malformed id. */
  function DeleteOrder(found: Lookup): (r: Result<Order>)
    ensures r.Ok? <==> found.Found?
    ensures r.Ok? ==> r.value == found.order
    ensures found.CastFailed? ==> r == Err(BadRequest)
    ensures found.NotThere? ==> r == Err(NotFound)
  {
    OrderByNumber(found)
  }

  // ---------------------------------------------------------------------------------
  // POST /orders (createOrder)

  /** A catalogue product; `price` None is a product that is not for sale. */
  datatype Product = Product(id: string, price: Option<int>)

  /** The fields `createOrder` destructures from the (validated) body; None is `undefined`. */
  datatype OrderBody = OrderBody(
    address: Option<Json>, payment: Option<Json>, phone: Option<Json>, total: Option<Json>,
    email: Option<Json>, items: seq<string>, comment: Option<Json>)

  /** The order document handed to Mongoose. */
  datatype Draft = Draft(
    totalAmount: Option<Json>, products: seq<string>, payment: Option<Json>, phone: string,
    email: Option<Json>, comment: Json, customer: UserId, deliveryAddress: Option<Json>)

  /**
   * What `createOrder` calls and this model does not define: `escapeHtml(comment, 1024)`
   * (its definition is not part of this model) and the order schema's check on `save`.
   */
  datatype OrderEnv = OrderEnv(escapeHtml: (Option<Json>, nat) -> Json, schemaAccepts: Draft -> bool)

  /** `String(phone ?? '')`. */
  function PhoneText(phone: Option<Json>): string
  {
    if phone.None? || phone.value.JNull? then "" else JsonString(phone.value)
  }

  /** The phone number the order stores, and whether it passes. */
  function StoredPhone(body: OrderBody): string
  {
    Validations.NormalizePhone(PhoneText(body.phone))
  }

  /** `products.find(p => p._id.equals(id))`: the first product with that id. */
  function FindProduct(catalogue: seq<Product>, id: string): (r: Option<Product>)
    ensures r.Some? ==> r.value in catalogue && r.value.id == id
    ensures r.None? <==> forall p :: p in catalogue ==> p.id != id
  {
    if |catalogue| == 0 then None
    else if catalogue[0].id == id then Some(catalogue[0])
    else FindProduct(catalogue[1..], id)
  }

  /** The product exists and is for sale. */
  predicate Priced(catalogue: seq<Product>, id: string)
  {
    FindProduct(catalogue, id).Some? && FindProduct(catalogue, id).value.price.Some?
  }

  function PriceOf(catalogue: seq<Product>, id: string): int
    requires Priced(catalogue, id)
  {
    FindProduct(catalogue, id).value.price.value
  }

  /** The `items.forEach` loop: the price of each item in turn, or 400 at the first missing or unpriced one. */
  function Basket(items: seq<string>, catalogue: seq<Product>): (r: Result<seq<int>>)
    ensures r.Ok? <==> forall i :: 0 <= i < |items| ==> Priced(catalogue, items[i])
    ensures r.Err? ==> r.error == BadRequest
    ensures r.Ok? ==> |r.value| == |items| && forall i :: 0 <= i < |items| ==> r.value[i] == PriceOf(catalogue, items[i])
  {
    if |items| == 0 then Ok([])
    else match FindProduct(catalogue, items[0])
      case None => Err(BadRequest)
      case Some(p) =>
        if p.price.None? then Err(BadRequest)
        else
          var rest :- Basket(items[1..], catalogue);
          Ok([p.price.value] + rest)
  }

  /** `basket.reduce((a, c) => a + c.price, 0)`. */
  function Sum(prices: seq<int>): int
  {
    if |prices| == 0 then 0 else prices[0] + Sum(prices[1..])
  }

  /** The price of a basket: each item's catalogue price, added up. */
  function TotalPrice(catalogue: seq<Product>, items: seq<string>): int
    requires forall i :: 0 <= i < |items| ==> Priced(catalogue, items[i])
  {
    if |items| == 0 then 0 else PriceOf(catalogue, items[0]) + TotalPrice(catalogue, items[1..])
  }

  /** The basket adds up to the total price of the items. */
  lemma {:induction false} BasketSumIsTotalPrice(items: seq<string>, catalogue: seq<Product>)
    requires Basket(items, catalogue).Ok?
    ensures Sum(Basket(items, catalogue).value) == TotalPrice(catalogue, items)
  {
    if |items| > 0 {
      var prices := Basket(items, catalogue).value;
      BasketSumIsTotalPrice(items[1..], catalogue);
      assert prices[1..] == Basket(items[1..], catalogue).value;
    }
  }

  /** The order `createOrder` saves for a body. */
  function DraftOf(body: OrderBody, user: UserId, env: OrderEnv): Draft
  {
    Draft(body.total, body.items, body.payment, StoredPhone(body), body.email,
      env.escapeHtml(body.comment, 1024), user, body.address)
  }

  /**
   * When an order is accepted, stated without the handler's steps: the phone passes once
   * normalised, every item is for sale, the total is the sum of their prices, and the
   * schema takes the resulting order.
   */
  predicate Acceptable(body: OrderBody, catalogue: seq<Product>, user: UserId, env: OrderEnv)
  {
    && Validations.PhoneOk(StoredPhone(body))
    && (forall i :: 0 <= i < |body.items| ==> Priced(catalogue, body.items[i]))
    && body.total == Some(JNum(TotalPrice(catalogue, body.items)))
    && env.schemaAccepts(DraftOf(body, user, env))
  }

  /**
   * `createOrder`: the phone check, the basket loop, the total comparison, then the
   * schema check on save; every refusal is 400.
   */
  function CreateOrder(body: OrderBody, catalogue: seq<Product>, user: UserId, env: OrderEnv): (r: Result<Draft>)
    ensures r.Ok? <==> Acceptable(body, catalogue, user, env)
    ensures r.Err? ==> r.error == BadRequest
    ensures r.Ok? ==> r.value == DraftOf(body, user, env) && Validations.PhoneOk(r.value.phone)
    ensures r.Ok? ==> r.value.customer == user && r.value.products == body.items
  {
    var phone := StoredPhone(body);
    if !Validations.PhoneOk(phone) then Err(BadRequest)
    else
      var prices :- Basket(body.items, catalogue);
      BasketSumIsTotalPrice(body.items, catalogue);
      if body.total != Some(JNum(Sum(prices))) then Err(BadRequest)
      else
        var draft := DraftOf(body, user, env);
        if !env.schemaAccepts(draft) then Err(BadRequest) else Ok(draft)
  }

  /** An item that is not in the catalogue, or not for sale, sinks the whole order. */
  lemma UnsellableItemRefused(body: OrderBody, catalogue: seq<Product>, user: UserId, env: OrderEnv, i: int)
    requires 0 <= i < |body.items| && !Priced(catalogue, body.items[i])
    ensures CreateOrder(body, catalogue, user, env) == Err(BadRequest)
  {
  }

  /**
   * A body that passed the order validator passes the handler's own phone check: the
   * validator already stored the normalised number, and normalising it again changes nothing.
   */
  lemma {:induction false} ValidatedPhonePasses(raw: Json, ck: Validations.Checkers, body: OrderBody)
    requires Validations.Validate(Validations.OrderBody, raw, ck).Ok?
    requires body.phone == Some(Validations.Validate(Validations.OrderBody, raw, ck).value["phone"])
    ensures Validations.PhoneOk(StoredPhone(body))
    ensures StoredPhone(body) == Validations.NormalizePhone(raw.fields["phone"].s)
  {
    Validations.ValidatedPhoneIsNormal(raw, ck);
    var phone := Validations.Validate(Validations.OrderBody, raw, ck).value["phone"];
    assert PhoneText(body.phone) == JsonString(phone) == phone.s;
  }
}
