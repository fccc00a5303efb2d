/**
 * `backend/src/utils/validateMimeType.ts`: the content type of an uploaded file,
 * decided from its first bytes and never from its name. The file is given as its
 * byte sequence instead of a path to read.
 */
module MimeSniff {
  import opened Wrappers
  import JsText

  newtype byte = x: int | 0 <= x < 256

  datatype Signature = Signature(mime: string, magic: seq<byte>)

  /** The signature table, in its declaration (and so iteration) order. */
  function Signatures(): seq<Signature>
  {
    [ Signature("image/png", [0x89, 0x50, 0x4E, 0x47]),
      Signature("image/jpeg", [0xFF, 0xD8, 0xFF]),
      Signature("image/gif", [0x47, 0x49, 0x46, 0x38]) ]
  }

  /** `buffer.slice(0, magic.length).equals(magic)`: a shorter buffer never matches. */
  predicate HasMagic(buf: seq<byte>, magic: seq<byte>)
  {
    |magic| <= |buf| && buf[..|magic|] == magic
  }

  /** `Array.prototype.find` over the table from position `i` on. */
  function FindSignature(table: seq<Signature>, buf: seq<byte>, i: nat): (r: Option<nat>)
    requires i <= |table|
    decreases |table| - i
    ensures r.Some? ==> i <= r.value < |table| && HasMagic(buf, table[r.value].magic)
    ensures r.Some? ==> forall j :: i <= j < r.value ==> !HasMagic(buf, table[j].magic)
    ensures r.None? ==> forall j :: i <= j < |table| ==> !HasMagic(buf, table[j].magic)
  {
    if i == |table| then None
    else if HasMagic(buf, table[i].magic) then Some(i)
    else FindSignature(table, buf, i + 1)
  }

  /**
   * `buffer.toString('utf8')` on ASCII input; a byte of 0x80 or above becomes the
   * replacement character, which is neither whitespace nor part of a marker.
   */
  function DecodeAscii(b: seq<byte>): (r: string)
    ensures |r| == |b|
  {
    seq(|b|, i requires 0 <= i < |b| => if b[i] < 0x80 then (b[i] as int) as char else '\U{FFFD}')
  }

  /** The first 256 bytes, decoded and trimmed, open an XML declaration or an `<svg` element. */
  predicate LooksLikeSvg(buf: seq<byte>)
  {
    var text := JsText.Trim(DecodeAscii(buf[..if |buf| < 256 then |buf| else 256]));
    JsText.StartsWith(text, "<?xml") || JsText.StartsWith(text, "<svg")
  }

  const SvgMime: string := "image/svg+xml"

  /** `validateMimeType`: the first signature that prefixes the file, else SVG, else null. */
  function ValidateMimeType(buf: seq<byte>): (r: Option<string>)
    ensures r.Some? ==> JsText.StartsWith(r.value, "image/")
    ensures forall j :: 0 <= j < |Signatures()| && HasMagic(buf, Signatures()[j].magic) ==>
              r.Some? && r.value != SvgMime
    ensures r == Some(SvgMime) <==>
              (forall j :: 0 <= j < |Signatures()| ==> !HasMagic(buf, Signatures()[j].magic)) && LooksLikeSvg(buf)
    ensures r.None? <==>
              (forall j :: 0 <= j < |Signatures()| ==> !HasMagic(buf, Signatures()[j].magic)) && !LooksLikeSvg(buf)
    ensures |buf| < 3 ==> r.None?
  {
    TableFacts();
    match FindSignature(Signatures(), buf, 0)
    case Some(i) => Some(Signatures()[i].mime)
    case None =>
      if LooksLikeSvg(buf) then
        assert |buf| >= 4 by { ShortTextIsNotSvg(buf); }
        Some(SvgMime)
      else None
  }

  /** Every type in the table is an image type other than SVG, and every magic has at least 3 bytes. */
  lemma TableFacts()
    ensures JsText.StartsWith(SvgMime, "image/")
    ensures forall j :: 0 <= j < |Signatures()| ==>
              JsText.StartsWith(Signatures()[j].mime, "image/") && Signatures()[j].mime != SvgMime &&
              |Signatures()[j].magic| >= 3
  {
    var t := Signatures();
    assert SvgMime[..6] == "image/";
    assert t[0].mime[..6] == "image/" && t[1].mime[..6] == "image/" && t[2].mime[..6] == "image/";
    assert t[0].mime != SvgMime && t[1].mime != SvgMime && t[2].mime != SvgMime;
  }

  /** A buffer too short to hold `<svg` cannot look like SVG. */
  lemma ShortTextIsNotSvg(buf: seq<byte>)
    requires LooksLikeSvg(buf)
    ensures |buf| >= 4
  {
    var head := buf[..if |buf| < 256 then |buf| else 256];
    assert |JsText.Trim(DecodeAscii(head))| <= |head|;
  }

  /** Exactly the signature whose magic prefixes the file decides its type. */
  lemma {:induction false} SignatureDecides(buf: seq<byte>, j: nat)
    requires j < |Signatures()| && HasMagic(buf, Signatures()[j].magic)
    ensures ValidateMimeType(buf) == Some(Signatures()[j].mime)
  {
    var t := Signatures();
    var found := FindSignature(t, buf, 0);
    assert found.Some?;
    var i := found.value;
    // Signatures start with distinct bytes, so no buffer carries two of them.
    assert t[i].magic[0] == buf[0] == t[j].magic[0];
  }

  /**
   * Trimming the end of the decoded text never matters: the text, trimmed, starts with
   * a marker iff it starts with the marker once leading whitespace is gone.
   */
  lemma {:induction false} TrailingTrimIrrelevant(s: string, marker: string)
    requires |marker| > 0 && !JsText.IsJsWhitespace(marker[|marker| - 1])
    ensures JsText.StartsWith(JsText.Trim(s), marker) <==> JsText.StartsWith(JsText.TrimStart(s), marker)
  {
    var t := JsText.TrimStart(s);
    assert JsText.Trim(s) == JsText.TrimEnd(t);
    JsText.TrimEndKeepsPrefix(t, marker);
    JsText.PrefixOfTrimEnd(t, marker);
  }
}
