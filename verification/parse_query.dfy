/** `backend/src/utils/parseQuery.ts`: sanitising of free-text query parameters. */
module ParseQuery {
  import opened Wrappers
  import opened JsValues
  import JsText

  /**
   * `safeString(v, maxLen)`: a string parameter trimmed and, when longer than `maxLen`
   * UTF-16 code units, cut to its first `maxLen` units; None for a non-string or for
   * one that is empty after trimming.
   */
  function SafeString(v: QueryValue, maxLen: nat): (r: Option<string>)
    ensures !v.Text? ==> r.None?
    ensures v.Text? ==> (r.None? <==> forall k :: 0 <= k < |v.s| ==> JsText.IsJsWhitespace(v.s[k]))
    ensures r.Some? ==> JsText.Utf16Length(r.value) <= maxLen && JsText.StartsWith(JsText.Trim(v.s), r.value)
    ensures r.Some? && JsText.Utf16Length(JsText.Trim(v.s)) <= maxLen ==> r.value == JsText.Trim(v.s)
    ensures r.Some? && |r.value| < |JsText.Trim(v.s)| ==>
              JsText.Utf16Length(r.value) + JsText.Utf16Units(JsText.Trim(v.s)[|r.value|]) > maxLen
  {
    match v
    case Text(raw) =>
      var s := JsText.Trim(raw);
      if s == "" then None
      else if JsText.Utf16Length(s) > maxLen then Some(JsText.Utf16Prefix(s, maxLen))
      else Some(s)
    case _ => None
  }

  /** The characters of the class `[.*+?^${}()|[\]\\]`. */
  predicate IsRegexMeta(c: char)
  {
    c in ".*+?^${}()|[]\\"
  }

  /** Puts one backslash in front of every regular-expression metacharacter. */
  function Escape(s: string): (r: string)
    ensures |s| <= |r| <= 2 * |s|
  {
    if |s| == 0 then ""
    else (if IsRegexMeta(s[0]) then ['\\', s[0]] else [s[0]]) + Escape(s[1..])
  }

  /** `escapeRegexForSearch(v, maxLen)`: truncate to `maxLen` UTF-16 code units, then escape. */
  function EscapeRegexForSearch(v: string, maxLen: nat): (r: string)
    ensures var cut := JsText.Utf16Prefix(v, maxLen); |cut| <= |r| <= 2 * |cut|
    ensures Unescape(r) == JsText.Utf16Prefix(v, maxLen)
    ensures JsText.Utf16Length(v) <= maxLen ==> Unescape(r) == v
    ensures IsLiteralPattern(r)
  {
    JsText.Utf16PrefixOfShort(v, maxLen);
    var s := JsText.Utf16Prefix(v, maxLen);
    UnescapeEscape(s);
    EscapeIsLiteral(s);
    Escape(s)
  }

  /** Drops the backslash of every backslash pair. */
  function Unescape(r: string): string
  {
    if |r| == 0 then ""
    else if r[0] == '\\' && |r| >= 2 then [r[1]] + Unescape(r[2..])
    else [r[0]] + Unescape(r[1..])
  }

  /**
   * A pattern that matches its characters literally: every metacharacter, the
   * backslash included, occurs only as the second half of a backslash pair.
   */
  predicate IsLiteralPattern(r: string)
  {
    if |r| == 0 then true
    else if r[0] == '\\' then |r| >= 2 && IsRegexMeta(r[1]) && IsLiteralPattern(r[2..])
    else !IsRegexMeta(r[0]) && IsLiteralPattern(r[1..])
  }

  /** The number of metacharacters in `s`. */
  function CountMeta(s: string): nat
  {
    if |s| == 0 then 0 else (if IsRegexMeta(s[0]) then 1 else 0) + CountMeta(s[1..])
  }

  /** Removing the inserted backslashes gives the input back. */
  lemma {:induction false} UnescapeEscape(s: string)
    ensures Unescape(Escape(s)) == s
  {
    if |s| > 0 {
      UnescapeEscape(s[1..]);
      var rest := Escape(s[1..]);
      if IsRegexMeta(s[0]) {
        assert Escape(s) == ['\\', s[0]] + rest;
        assert Escape(s)[2..] == rest;
      } else {
        assert Escape(s) == [s[0]] + rest;
        assert Escape(s)[1..] == rest;
      }
    }
  }

  /** Escaping yields a literal pattern. */
  lemma {:induction false} EscapeIsLiteral(s: string)
    ensures IsLiteralPattern(Escape(s))
  {
    if |s| > 0 {
      EscapeIsLiteral(s[1..]);
      var rest := Escape(s[1..]);
      if IsRegexMeta(s[0]) {
        assert Escape(s)[2..] == rest;
      } else {
        assert Escape(s)[1..] == rest;
      }
    }
  }

  /** Escaping adds exactly one character per metacharacter. */
  lemma {:induction false} EscapeLength(s: string)
    ensures |Escape(s)| == |s| + CountMeta(s)
  {
    if |s| > 0 {
      EscapeLength(s[1..]);
    }
  }

  /** Every literal pattern is the escape of exactly one string: its unescaping. */
  lemma {:induction false} EscapeUnescape(r: string)
    requires IsLiteralPattern(r)
    ensures Escape(Unescape(r)) == r
  {
    if |r| > 0 {
      if r[0] == '\\' {
        EscapeUnescape(r[2..]);
        assert Unescape(r) == [r[1]] + Unescape(r[2..]);
        assert Unescape(r)[1..] == Unescape(r[2..]);
      } else {
        EscapeUnescape(r[1..]);
        assert Unescape(r) == [r[0]] + Unescape(r[1..]);
        assert Unescape(r)[1..] == Unescape(r[1..]);
      }
    }
  }

  /** Only metacharacters change: a string without any is its own escape. */
  lemma {:induction false} EscapePlainIsIdentity(s: string)
    requires forall k :: 0 <= k < |s| ==> !IsRegexMeta(s[k])
    ensures Escape(s) == s
  {
    if |s| > 0 {
      EscapePlainIsIdentity(s[1..]);
    }
  }
}
