/**
 * The JavaScript string primitives the handlers rely on: `trim`, ASCII lower-casing,
 * `startsWith`, `Array.prototype.join` and character classes of the regular
 * expressions in the source.
 */
module JsText {

  /** The characters `String.prototype.trim` removes: WhiteSpace and LineTerminator of ECMA-262. */
  predicate IsJsWhitespace(c: char)
  {
    || c == ' ' || c == '\t' || c == '\n' || c == '\r'
    || c == '\U{000B}' || c == '\U{000C}' || c == '\U{00A0}' || c == '\U{1680}'
    || ('\U{2000}' <= c <= '\U{200A}')
    || c == '\U{2028}' || c == '\U{2029}' || c == '\U{202F}' || c == '\U{205F}'
    || c == '\U{3000}' || c == '\U{FEFF}'
  }

  /** Removes leading whitespace; the result is the longest suffix not starting with whitespace. */
  function TrimStart(s: string): (r: string)
    ensures |r| <= |s| && r == s[|s| - |r|..]
    ensures forall k :: 0 <= k < |s| - |r| ==> IsJsWhitespace(s[k])
    ensures |r| > 0 ==> !IsJsWhitespace(r[0])
  {
    if |s| > 0 && IsJsWhitespace(s[0]) then TrimStart(s[1..]) else s
  }

  /** Removes trailing whitespace; the result is the longest prefix not ending in whitespace. */
  function TrimEnd(s: string): (r: string)
    ensures |r| <= |s| && r == s[..|r|]
    ensures forall k :: |r| <= k < |s| ==> IsJsWhitespace(s[k])
    ensures |r| > 0 ==> !IsJsWhitespace(r[|r| - 1])
  {
    if |s| > 0 && IsJsWhitespace(s[|s| - 1]) then TrimEnd(s[..|s| - 1]) else s
  }

  /** `String.prototype.trim`. */
  function Trim(s: string): (r: string)
    ensures |r| <= |s|
    ensures |r| == 0 <==> forall k :: 0 <= k < |s| ==> IsJsWhitespace(s[k])
    ensures |r| > 0 ==> !IsJsWhitespace(r[0]) && !IsJsWhitespace(r[|r| - 1])
  {
    var t := TrimStart(s);
    var r := TrimEnd(t);
    // A non-empty `t` starts with a non-whitespace character that `TrimEnd` keeps.
    assert |r| == 0 ==> |t| == 0;
    r
  }

  /** A string that neither starts nor ends with whitespace is its own trim. */
  lemma TrimKeepsEdges(s: string)
    requires |s| > 0 && !IsJsWhitespace(s[0]) && !IsJsWhitespace(s[|s| - 1])
    ensures Trim(s) == s
  {
    assert TrimStart(s) == s;
    assert TrimEnd(s) == s;
  }

  /** Trailing whitespace cannot eat into a prefix that ends in a non-whitespace character. */
  lemma TrimEndKeepsPrefix(t: string, prefix: string)
    requires |prefix| > 0 && !IsJsWhitespace(prefix[|prefix| - 1])
    ensures StartsWith(t, prefix) ==> StartsWith(TrimEnd(t), prefix)
  {
    if StartsWith(t, prefix) {
      var n := |prefix|;
      var u := TrimEnd(t);
      assert n <= |u| by {
        assert t[n - 1] == prefix[n - 1];
      }
      assert u[..n] == t[..n];
    }
  }

  /** A prefix of the text without its trailing whitespace is a prefix of the text. */
  lemma PrefixOfTrimEnd(t: string, prefix: string)
    ensures StartsWith(TrimEnd(t), prefix) ==> StartsWith(t, prefix)
  {
    if StartsWith(TrimEnd(t), prefix) {
      assert t[..|prefix|] == TrimEnd(t)[..|prefix|];
    }
  }

  /** Lower-cases ASCII letters and leaves every other character alone. */
  function LowerChar(c: char): char
  {
    if 'A' <= c <= 'Z' then (c as int + 32) as char else c
  }

  function LowerAscii(s: string): (r: string)
    ensures |r| == |s|
    ensures forall i :: 0 <= i < |s| ==> r[i] == LowerChar(s[i])
  {
    seq(|s|, i requires 0 <= i < |s| => LowerChar(s[i]))
  }

  /** The UTF-16 code units a character takes: a surrogate pair beyond U+FFFF, one unit below. */
  function Utf16Units(c: char): nat
  {
    if c as int > 0xFFFF then 2 else 1
  }

  /** `String.prototype.length`: the number of UTF-16 code units, which is not the number of characters. */
  function Utf16Length(s: string): (r: nat)
    ensures |s| <= r <= 2 * |s|
  {
    if |s| == 0 then 0 else Utf16Units(s[0]) + Utf16Length(s[1..])
  }

  /** Text inside the Basic Multilingual Plane has one code unit per character. */
  lemma {:induction false} Utf16LengthOfBmp(s: string)
    requires forall k :: 0 <= k < |s| ==> s[k] as int <= 0xFFFF
    ensures Utf16Length(s) == |s|
  {
    if |s| > 0 {
      Utf16LengthOfBmp(s[1..]);
    }
  }

  /**
   * `s.slice(0, n)` counted in UTF-16 code units: the longest prefix of at most `n` units.
   * A surrogate pair the cut would split is dropped whole.
   */
  function Utf16Prefix(s: string, n: nat): (r: string)
    ensures |r| <= |s| && r == s[..|r|]
    ensures Utf16Length(r) <= n
    ensures |r| < |s| ==> Utf16Length(r) + Utf16Units(s[|r|]) > n
  {
    if |s| == 0 || Utf16Units(s[0]) > n then ""
    else
      var rest := Utf16Prefix(s[1..], n - Utf16Units(s[0]));
      assert ([s[0]] + rest)[1..] == rest;
      [s[0]] + rest
  }

  /** A text of at most `n` code units is its own prefix. */
  lemma {:induction false} Utf16PrefixOfShort(s: string, n: nat)
    ensures Utf16Length(s) <= n ==> Utf16Prefix(s, n) == s
  {
    if |s| > 0 && Utf16Length(s) <= n {
      Utf16PrefixOfShort(s[1..], n - Utf16Units(s[0]));
    }
  }

  predicate IsDigit(c: char)
  {
    '0' <= c <= '9'
  }

  /** `String.prototype.startsWith`. */
  predicate StartsWith(s: string, prefix: string)
  {
    |prefix| <= |s| && s[..|prefix|] == prefix
  }

  /** `Array.prototype.join` over strings. */
  function Join(items: seq<string>, sep: string): string
  {
    if |items| == 0 then ""
    else if |items| == 1 then items[0]
    else items[0] + sep + Join(items[1..], sep)
  }

  /** The first element and the rest of a concatenation whose left part is non-empty. */
  lemma ConcatSplit<T>(a: seq<T>, b: seq<T>)
    requires |a| > 0
    ensures (a + b)[0] == a[0] && (a + b)[1..] == a[1..] + b
  {
  }
}
