/**
 * The shapes request data takes when a handler reads it, and the JavaScript coercions
 * the handlers apply to them.
 */
module JsValues {
  import opened Wrappers
  import JsText

  /**
   * One query-string parameter as Express's query parser delivers it: absent, a single
   * string, a repeated key (an array of strings), or a bracketed key (a nested object).
   */
  datatype QueryValue = Missing | Text(s: string) | Many(items: seq<string>) | Nested

  /** JavaScript truthiness of a query parameter: only `undefined` and `''` are falsy. */
  predicate QueryTruthy(v: QueryValue)
  {
    match v
    case Missing => false
    case Text(s) => s != ""
    case _ => true
  }

  /** `String(v)`: arrays join with commas, objects print as `[object Object]`. */
  function QueryString(v: QueryValue): string
  {
    match v
    case Missing => "undefined"
    case Text(s) => s
    case Many(items) => JsText.Join(items, ",")
    case Nested => "[object Object]"
  }

  /**
   * The number and date parsers of the JavaScript runtime, which this model does not
   * reimplement: `toNumber(s)` is `Number(s)` when that is a finite integer and None when
   * it is NaN or infinite; `toDate(s)` is the time value of `new Date(s)`, None for an
   * Invalid Date; `endOfDay(t)` is `t` after `setHours(23, 59, 59, 999)`.
   */
  datatype Coercions = Coercions(
    toNumber: string -> Option<int>,
    toDate: string -> Option<int>,
    endOfDay: int -> int)

  /** `Number(v)` for a query parameter, None unless finite; `Number(undefined)` is NaN. */
  function QueryNumber(v: QueryValue, c: Coercions): Option<int>
  {
    if v.Missing? then None else c.toNumber(QueryString(v))
  }

  /** `new Date(String(v))`, None for an Invalid Date; `new Date('undefined')` is one. */
  function QueryDate(v: QueryValue, c: Coercions): Option<int>
  {
    if v.Missing? then None else c.toDate(QueryString(v))
  }

  /** `a ?? b` on query parameters: only an absent parameter falls through. */
  function Coalesce(a: QueryValue, b: QueryValue): QueryValue
  {
    if a.Missing? then b else a
  }

  /** A parsed JSON request body value. Numbers are integers in this model. */
  datatype Json =
    | JNull
    | JBool(b: bool)
    | JNum(n: int)
    | JStr(s: string)
    | JArr(items: seq<Json>)
    | JObj(fields: map<string, Json>)

  /** The decimal digits of `n`, most significant first, without leading zeros. */
  function NatDigits(n: nat): (r: string)
    ensures |r| >= 1
    ensures forall k :: 0 <= k < |r| ==> JsText.IsDigit(r[k])
    ensures |r| > 1 ==> r[0] != '0'
  {
    var last := [(('0' as int) + n % 10) as char];
    if n < 10 then last else NatDigits(n / 10) + last
  }

  /** The number a string of decimal digits denotes. */
  function DigitsValue(s: string): nat
    requires forall k :: 0 <= k < |s| ==> JsText.IsDigit(s[k])
  {
    if |s| == 0 then 0
    else
      assert JsText.IsDigit(s[|s| - 1]);
      DigitsValue(s[..|s| - 1]) * 10 + ((s[|s| - 1] as int) - ('0' as int))
  }

  /** Reading back the printed digits gives the number. */
  lemma {:induction false} DigitsRoundTrip(n: nat)
    ensures DigitsValue(NatDigits(n)) == n
  {
    var r := NatDigits(n);
    if n >= 10 {
      DigitsRoundTrip(n / 10);
      assert r[..|r| - 1] == NatDigits(n / 10);
    }
  }

  /** `String(n)` for an integer. */
  function DecimalString(n: int): (r: string)
    ensures |r| >= 1
    ensures n >= 0 <==> r[0] != '-'
  {
    if n < 0 then "-" + NatDigits(-n) else NatDigits(n)
  }

  /**
   * `String(v)` for a JSON value: an array joins its elements with commas, printing
   * `null` elements as empty; an object prints as `[object Object]`.
   */
  function JsonString(v: Json): string
    decreases v
  {
    match v
    case JNull => "null"
    case JBool(b) => if b then "true" else "false"
    case JNum(n) => DecimalString(n)
    case JStr(s) => s
    case JArr(items) =>
      JsText.Join(seq(|items|, i requires 0 <= i < |items| => if items[i].JNull? then "" else JsonString(items[i])), ",")
    case JObj(_) => "[object Object]"
  }
}
