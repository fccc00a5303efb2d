/**
 * `backend/src/controllers/customers.ts`: the admin customer listing's query handling,
 * which, unlike the order listing, never refuses a query (a bad bound is dropped, an
 * unknown sort field falls back), and the decisions of the by-id handlers.
 */
module Customers {
  import opened Wrappers
  import opened Errors
  import opened JsValues
  import JsText
  import ParseQuery
  import Pagination

  /** The query parameters `getCustomers` reads. */
  datatype CustomersQuery = CustomersQuery(
    page: QueryValue, limit: QueryValue,
    sortField: QueryValue, sort: QueryValue, sortOrder: QueryValue, order: QueryValue,
    registrationDateFrom: QueryValue, registrationDateTo: QueryValue,
    lastOrderDateFrom: QueryValue, lastOrderDateTo: QueryValue,
    totalAmountFrom: QueryValue, totalAmountTo: QueryValue,
    orderCountFrom: QueryValue, orderCountTo: QueryValue,
    search: QueryValue)

  /** One alternative of the search `$or`. */
  datatype SearchClause = NameMatches(pattern: string) | LastOrderIn(orderIds: seq<string>)

  datatype CustomerFilters = CustomerFilters(
    createdAt: Option<Pagination.Range>,
    lastOrderDate: Option<Pagination.Range>,
    totalAmount: Option<Pagination.Range>,
    orderCount: Option<Pagination.Range>,
    search: seq<SearchClause>)  // empty: no `$or`

  datatype Sort = Sort(field: string, direction: int)

  /** What `User.find` runs with. */
  datatype Listing = Listing(filters: CustomerFilters, sort: Sort, page: int, limit: int, skip: nat)

  /** The fields the listing may sort by. */
  const SortFields: set<string> := {"createdAt", "lastOrderDate", "totalAmount", "orderCount", "name"}

  /** `sortField ?? sort ?? 'createdAt'`, kept only when it is one of the whitelisted names. */
  function SortFieldOf(sortField: QueryValue, sort: QueryValue): (r: string)
    ensures r in SortFields
    ensures sortField.Text? && sortField.s in SortFields ==> r == sortField.s
    ensures sortField.Missing? && sort.Text? && sort.s in SortFields ==> r == sort.s
    ensures !sortField.Missing? && !(sortField.Text? && sortField.s in SortFields) ==> r == "createdAt"
  {
    match Coalesce(sortField, Coalesce(sort, Text("createdAt")))
    case Text(s) => if s in SortFields then s else "createdAt"
    case _ => "createdAt"
  }

  /** `String(sortOrder ?? order ?? 'desc').toLowerCase() === 'asc' ? 1 : -1`. */
  function DirectionOf(sortOrder: QueryValue, order: QueryValue): (r: int)
    ensures r == 1 || r == -1
    ensures r == 1 <==> JsText.LowerAscii(QueryString(Coalesce(sortOrder, Coalesce(order, Text("desc"))))) == "asc"
  {
    if JsText.LowerAscii(QueryString(Coalesce(sortOrder, Coalesce(order, Text("desc"))))) == "asc" then 1 else -1
  }

  /** Every spelling of `asc`, in any letter case, sorts ascending; the default sorts descending. */
  lemma {:induction false} AscendingAnyCase(s: string)
    requires |s| == 3 && s[0] in "aA" && s[1] in "sS" && s[2] in "cC"
    ensures DirectionOf(Text(s), Missing) == 1
    ensures DirectionOf(Missing, Text(s)) == 1
    ensures DirectionOf(Missing, Missing) == -1
  {
    assert JsText.LowerAscii(s) == "asc";
    assert JsText.LowerAscii("desc") != "asc" by {
      assert |JsText.LowerAscii("desc")| == 4;
    }
  }

  /** A lenient bound: applied when it parses, silently dropped when it does not. */
  function LenientBound(range: Option<Pagination.Range>, read: Option<int>, lower: bool): (r: Option<Pagination.Range>)
    ensures read.None? ==> r == range
    ensures read.Some? && lower ==> r == Pagination.WithLower(range, read.value)
    ensures read.Some? && !lower ==> r == Pagination.WithUpper(range, read.value)
  {
    match read
    case None => range
    case Some(n) => if lower then Pagination.WithLower(range, n) else Pagination.WithUpper(range, n)
  }

  /** `if (v) { const d = new Date(String(v)); if valid ... }`: a date bound read only from a truthy value. */
  function DateRead(v: QueryValue, c: Coercions, endOfDay: bool): (r: Option<int>)
    ensures !QueryTruthy(v) ==> r.None?
    ensures QueryTruthy(v) && QueryDate(v, c).Some? ==> r == Some(if endOfDay then c.endOfDay(QueryDate(v, c).value) else QueryDate(v, c).value)
    ensures QueryDate(v, c).None? ==> r.None?
  {
    if !QueryTruthy(v) then None
    else match QueryDate(v, c)
      case None => None
      case Some(t) => Some(if endOfDay then c.endOfDay(t) else t)
  }

  /** The two bounds of one lenient range, lower then upper, the way the handler spreads them. */
  function LenientRange(lower: Option<int>, upper: Option<int>): (r: Option<Pagination.Range>)
    ensures r == Pagination.RangeOf(lower, upper)
  {
    LenientBound(LenientBound(None, lower, true), upper, false)
  }

  /**
   * The order lookup behind the search: the ids of the orders whose delivery address
   * matches the pattern (`Order.find({ deliveryAddress: safeRe })`).
   */
  type AddressIndex = string -> seq<string>

  /** Whether the search parameter is used: a non-empty string that is non-empty once trimmed. */
  function SearchText(search: QueryValue): (r: Option<string>)
    ensures r.Some? ==> search.Text? && search.s != "" && r.value != "" && JsText.Utf16Length(r.value) <= 64
    ensures r.Some? ==> ParseQuery.SafeString(search, 64) == Some(r.value)
    ensures !search.Text? || search.s == "" ==> r.None?
  {
    if search.Text? && |search.s| > 0 then
      match ParseQuery.SafeString(search, 64)
      case Some(q) => if q != "" then Some(q) else None
      case None => None
    else None
  }

  /** The search `$or`: always the name clause, and the last-order clause only when some address matched. */
  function SearchClauses(search: QueryValue, addresses: AddressIndex): (r: seq<SearchClause>)
    ensures r == [] <==> SearchText(search).None?
    ensures r != [] ==> r[0] == NameMatches(ParseQuery.EscapeRegexForSearch(SearchText(search).value, 64))
    ensures r != [] ==> (|r| == 2 <==> addresses(r[0].pattern) != []) && 1 <= |r| <= 2
    ensures |r| == 2 ==> r[1] == LastOrderIn(addresses(r[0].pattern))
  {
    match SearchText(search)
    case None => []
    case Some(q) =>
      var pattern := ParseQuery.EscapeRegexForSearch(q, 64);
      var ids := addresses(pattern);
      if |ids| > 0 then [NameMatches(pattern), LastOrderIn(ids)] else [NameMatches(pattern)]
  }

  /**
   * `getCustomers` up to the query. It is total: whatever the parameters, a listing comes
   * out, and no bound can turn the request into an error.
   */
  function CustomersListing(q: CustomersQuery, c: Coercions, addresses: AddressIndex): (r: Listing)
    ensures 1 <= r.limit <= Pagination.MaxLimit && r.page >= 1
    ensures r.limit == Pagination.LimitOf(q.limit, 10, c) && r.page == Pagination.PageOf(q.page, c)
    ensures r.skip == (r.page - 1) * r.limit
    ensures r.sort == Sort(SortFieldOf(q.sortField, q.sort), DirectionOf(q.sortOrder, q.order))
    ensures r.sort.field in SortFields && (r.sort.direction == 1 || r.sort.direction == -1)
    ensures r.filters.createdAt == Pagination.RangeOf(DateRead(q.registrationDateFrom, c, false), DateRead(q.registrationDateTo, c, true))
    ensures r.filters.lastOrderDate == Pagination.RangeOf(DateRead(q.lastOrderDateFrom, c, false), DateRead(q.lastOrderDateTo, c, true))
    ensures r.filters.totalAmount == Pagination.RangeOf(QueryNumber(q.totalAmountFrom, c), QueryNumber(q.totalAmountTo, c))
    ensures r.filters.orderCount == Pagination.RangeOf(QueryNumber(q.orderCountFrom, c), QueryNumber(q.orderCountTo, c))
    ensures r.filters.search == SearchClauses(q.search, addresses)
  {
    var limit := Pagination.LimitOf(q.limit, 10, c);
    var page := Pagination.PageOf(q.page, c);
    var filters := CustomerFilters(
      LenientRange(DateRead(q.registrationDateFrom, c, false), DateRead(q.registrationDateTo, c, true)),
      LenientRange(DateRead(q.lastOrderDateFrom, c, false), DateRead(q.lastOrderDateTo, c, true)),
      LenientRange(QueryNumber(q.totalAmountFrom, c), QueryNumber(q.totalAmountTo, c)),
      LenientRange(QueryNumber(q.orderCountFrom, c), QueryNumber(q.orderCountTo, c)),
      SearchClauses(q.search, addresses));
    Listing(filters, Sort(SortFieldOf(q.sortField, q.sort), DirectionOf(q.sortOrder, q.order)), page, limit, Pagination.Skip(page, limit))
  }

  /**
   * An unreadable bound is the same as no bound: replacing a parameter that does not
   * parse by an absent one changes nothing about the listing.
   */
  lemma UnreadableBoundIgnored(q: CustomersQuery, c: Coercions, addresses: AddressIndex)
    requires QueryNumber(q.totalAmountFrom, c).None? && QueryDate(q.registrationDateTo, c).None?
    ensures CustomersListing(q, c, addresses) == CustomersListing(q.(totalAmountFrom := Missing, registrationDateTo := Missing), c, addresses)
  {
  }

  /** A sort field outside the whitelist sorts by creation date, whichever parameter carried it. */
  lemma {:induction false} UnknownSortFieldFallsBack(q: CustomersQuery, c: Coercions, addresses: AddressIndex, field: string)
    requires field !in SortFields
    requires q.sortField == Text(field) || (q.sortField.Missing? && q.sort == Text(field))
    ensures CustomersListing(q, c, addresses).sort.field == "createdAt"
  {
  }

  /** `sortField` wins over `sort` when both are given, even when `sort` names a whitelisted field and `sortField` does not. */
  lemma SortFieldPreferred(a: string, b: string)
    requires a in SortFields && b in SortFields
    ensures SortFieldOf(Text(a), Text(b)) == a
    ensures SortFieldOf(Text("$where"), Text(b)) == "createdAt"
  {
    assert "$where" !in SortFields;
  }

  // ---------------------------------------------------------------------------------
  // By-id handlers

  /** What `User.findById` and its update and delete variants give. */
  datatype UserLookup<T> = FoundUser(user: T) | NoUser | BadId

  /** `getCustomerById` as written: no `orFail`, so an unknown id is 200 with a `null` body. */
  function CustomerById<T>(found: UserLookup<T>): (r: Result<Option<T>>)
    ensures found.FoundUser? ==> r == Ok(Some(found.user))
    ensures found.NoUser? ==> r == Ok(None)
    ensures found.BadId? ==> r == Err(Unmapped(CastFailure))
  {
    match found
    case FoundUser(u) => Ok(Some(u))
    case NoUser => Ok(None)
    case BadId => Err(Unmapped(CastFailure))
  }

  /** `updateCustomer` and `deleteCustomer`: `orFail` makes an unknown id 404; a malformed id reaches the error handler. */
  function CustomerWrite<T>(found: UserLookup<T>): (r: Result<T>)
    ensures r.Ok? <==> found.FoundUser?
    ensures found.FoundUser? ==> r.value == found.user
    ensures found.NoUser? ==> r == Err(NotFound)
    ensures found.BadId? ==> r == Err(Unmapped(CastFailure))
  {
    match found
    case FoundUser(u) => Ok(u)
    case NoUser => Err(NotFound)
    case BadId => Err(Unmapped(CastFailure))
  }

  /** The read answers an unknown customer with success, while the writes answer the same id with 404. */
  lemma {:induction false} UnknownCustomerReadSucceeds<T>()
    ensures CustomerById<T>(NoUser).Ok? && CustomerById<T>(NoUser).value.None?
    ensures CustomerWrite<T>(NoUser) == Err(NotFound)
  {
  }

  /** The read with the `orFail` the writes have: an unknown id is 404. */
  function CustomerByIdChecked<T>(found: UserLookup<T>): (r: Result<T>)
    ensures r.Ok? <==> found.FoundUser?
    ensures found.NoUser? ==> r == Err(NotFound)
    ensures found.BadId? ==> r == Err(Unmapped(CastFailure))
  {
    CustomerWrite(found)
  }

  /** With the check, reading and writing agree on which ids exist, and a found customer reads as before. */
  lemma ReadAgreesWithWrites<T>(found: UserLookup<T>)
    ensures CustomerByIdChecked(found).Ok? <==> CustomerWrite(found).Ok?
    ensures CustomerByIdChecked(found).Err? ==> CustomerByIdChecked(found) == CustomerWrite(found)
    ensures found.FoundUser? ==> CustomerById(found) == Ok(Some(CustomerByIdChecked(found).value))
  {
  }
}
