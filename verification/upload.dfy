/**
 * `backend/src/controllers/upload.ts`: acceptance of an uploaded image and the name it
 * is stored and published under. The file arrives as its bytes and its client-side
 * name; the 16 random bytes of `crypto.randomBytes(16)` are a parameter.
 */
module Upload {
  import opened Wrappers
  import opened Errors
  import JsText
  import MimeSniff

  type byte = MimeSniff.byte

  datatype UploadedFile = UploadedFile(content: seq<byte>, originalName: string)

  /** `fileSizeConfig` of the configuration: the accepted size range in bytes. */
  datatype SizeLimits = SizeLimits(minSize: int, maxSize: int)

  /** Why a file is refused; each reason is answered with BadRequest. */
  datatype Rejection = NoFile | TooSmall | TooLarge | NotAnImage

  /** The 201 response body: public file name, size and detected MIME type. */
  datatype Stored = Stored(status: int, fileName: string, size: nat, mimeType: string)

  datatype UploadOutcome = Rejected(reason: Rejection) | Created(stored: Stored)

  // ---------------------------------------------------------------------------
  // path.extname (POSIX flavour)

  /** The position of the last `c` in `s`, if any. */
  function LastIndexOf(s: string, c: char): (r: Option<nat>)
    ensures r.Some? ==> r.value < |s| && s[r.value] == c && forall k :: r.value < k < |s| ==> s[k] != c
    ensures r.None? ==> forall k :: 0 <= k < |s| ==> s[k] != c
  {
    if |s| == 0 then None
    else if s[|s| - 1] == c then Some(|s| - 1)
    else LastIndexOf(s[..|s| - 1], c)
  }

  function StripTrailingSlashes(p: string): (r: string)
    ensures |r| <= |p| && r == p[..|r|]
    ensures |r| > 0 ==> r[|r| - 1] != '/'
  {
    if |p| > 0 && p[|p| - 1] == '/' then StripTrailingSlashes(p[..|p| - 1]) else p
  }

  /** The last path component, trailing slashes ignored. */
  function Basename(p: string): (r: string)
    ensures forall k :: 0 <= k < |r| ==> r[k] != '/'
  {
    var q := StripTrailingSlashes(p);
    match LastIndexOf(q, '/')
    case None => q
    case Some(i) => q[i + 1..]
  }

  /**
   * `path.extname`: from the last dot of the last component to its end; empty when
   * that component has no dot, starts with its only leading dot, or is `..`.
   */
  function Extname(p: string): (r: string)
    ensures r == "" || (r[0] == '.' && forall k :: 0 < k < |r| ==> r[k] != '.' && r[k] != '/')
  {
    var base := Basename(p);
    match LastIndexOf(base, '.')
    case None => ""
    case Some(d) => if d == 0 || base == ".." then "" else base[d..]
  }

  /** The extension of an ordinary `stem.ext` file name is `.ext`. */
  lemma ExtnameOfPlainName(stem: string, ext: string)
    requires |stem| > 0 && stem + "." + ext != ".."
    requires forall k :: 0 <= k < |stem| ==> stem[k] != '/'
    requires forall k :: 0 <= k < |ext| ==> ext[k] != '/' && ext[k] != '.'
    ensures Extname(stem + "." + ext) == "." + ext
  {
    var name := stem + "." + ext;
    if |ext| > 0 {
      assert name[|name| - 1] == ext[|ext| - 1];
    }
    assert StripTrailingSlashes(name) == name;
    assert Basename(name) == name;
    var d := LastIndexOf(name, '.');
    assert name[|stem|] == '.';
    assert d == Some(|stem|);
    assert name[|stem|..] == "." + ext;
  }

  // ---------------------------------------------------------------------------
  // Stored and public names

  predicate IsHexDigit(c: char)
  {
    '0' <= c <= '9' || 'a' <= c <= 'f'
  }

  /** The lower-case hex digit of a nibble. */
  function HexDigit(n: nat): (c: char)
    requires n < 16
    ensures IsHexDigit(c)
  {
    if n < 10 then ('0' as int + n) as char else ('a' as int + n - 10) as char
  }

  /** `Buffer.toString('hex')`: two lower-case hex digits per byte, high nibble first. */
  function HexEncode(b: seq<byte>): (r: string)
    ensures |r| == 2 * |b|
    ensures forall k :: 0 <= k < |r| ==> IsHexDigit(r[k])
  {
    if |b| == 0 then ""
    else [HexDigit(b[0] as int / 16), HexDigit(b[0] as int % 16)] + HexEncode(b[1..])
  }

  function HexValue(c: char): nat
  {
    if '0' <= c <= '9' then c as int - '0' as int
    else if 'a' <= c <= 'f' then c as int - 'a' as int + 10
    else 0
  }

  function HexDecode(s: string): seq<byte>
    requires |s| % 2 == 0
    requires forall k :: 0 <= k < |s| ==> IsHexDigit(s[k])
  {
    if |s| == 0 then []
    else [(HexValue(s[0]) * 16 + HexValue(s[1])) as byte] + HexDecode(s[2..])
  }

  /** The hex text determines the random bytes: decoding it gives them back. */
  lemma {:induction false} HexRoundTrip(b: seq<byte>)
    ensures HexDecode(HexEncode(b)) == b
  {
    if |b| > 0 {
      var h := HexEncode(b);
      var v := b[0] as int;
      assert HexValue(h[0]) == v / 16 && HexValue(h[1]) == v % 16;
      assert (HexValue(h[0]) * 16 + HexValue(h[1])) as byte == b[0];
      assert h[2..] == HexEncode(b[1..]);
      HexRoundTrip(b[1..]);
      assert b == [b[0]] + b[1..];
    }
  }

  /**
   * The extension kept in the stored name: lower-cased, and dropped when longer than 10
   * UTF-16 code units.
   */
  function SafeExt(originalName: string): (r: string)
    ensures |r| <= JsText.Utf16Length(r) <= 10
    ensures r == "" || r == JsText.LowerAscii(Extname(originalName))
    ensures r == "" <==> Extname(originalName) == "" || JsText.Utf16Length(JsText.LowerAscii(Extname(originalName))) > 10
  {
    var ext := JsText.LowerAscii(Extname(originalName));
    if ext != "" && JsText.Utf16Length(ext) <= 10 then ext else ""
  }

  /**
   * An extension of five characters beyond U+FFFF is ten code units after its dot, eleven
   * with it: `a.` followed by five emoji keeps no extension.
   */
  lemma AstralExtensionDropped()
    ensures SafeExt("a" + "." + "\U{1F600}\U{1F600}\U{1F600}\U{1F600}\U{1F600}") == ""
  {
    var ext := "\U{1F600}\U{1F600}\U{1F600}\U{1F600}\U{1F600}";
    var name := "a" + "." + ext;
    assert Extname(name) == "." + ext by {
      ExtnameOfPlainName("a", ext);
    }
    assert JsText.Utf16Length("." + ext) == 11;
    LongExtensionDropped(name);
  }

  /** An extension longer than 10 code units is dropped. */
  lemma LongExtensionDropped(originalName: string)
    requires JsText.Utf16Length(Extname(originalName)) > 10
    ensures SafeExt(originalName) == ""
  {
    LowerAsciiKeepsUtf16Length(Extname(originalName));
  }

  /** Lower-casing keeps the code units: a character changes only within ASCII. */
  lemma {:induction false} LowerAsciiKeepsUtf16Length(s: string)
    ensures JsText.Utf16Length(JsText.LowerAscii(s)) == JsText.Utf16Length(s)
  {
    if |s| > 0 {
      LowerAsciiKeepsUtf16Length(s[1..]);
      assert JsText.LowerAscii(s)[1..] == JsText.LowerAscii(s[1..]);
    }
  }

  /** An extension of 1 to 10 code units is kept, lower-cased. */
  lemma ShortExtensionKept(originalName: string)
    requires 0 < JsText.Utf16Length(Extname(originalName)) <= 10
    ensures SafeExt(originalName) == JsText.LowerAscii(Extname(originalName))
  {
    LowerAsciiKeepsUtf16Length(Extname(originalName));
  }

  /** `<32 hex digits><safeExt>`; nothing of the original name but its extension. */
  function StoredName(random: seq<byte>, originalName: string): (r: string)
    requires |random| == 16
    ensures 32 <= |r| <= 42
    ensures forall k :: 0 <= k < 32 ==> IsHexDigit(r[k])
    ensures r[32..] == SafeExt(originalName)
  {
    HexEncode(random) + SafeExt(originalName)
  }

  /** `process.env.UPLOAD_PATH || 'uploads'`, with "" standing for an unset variable. */
  function UploadDir(uploadPathEnv: string): (r: string)
    ensures r != ""
  {
    if uploadPathEnv == "" then "uploads" else uploadPathEnv
  }

  /** Replaces every run of backslashes by one slash; `inRun` says a run is open. */
  function CollapseFrom(s: string, inRun: bool): string
  {
    if |s| == 0 then "" else CollapseHead(s[0], inRun) + CollapseFrom(s[1..], s[0] == '\\')
  }

  /** `s.replace(/\\+/g, '/')`. */
  function CollapseBackslashes(s: string): string
  {
    CollapseFrom(s, false)
  }

  /** Whether a run of backslashes is open after `s`. */
  function EndsInRun(s: string, inRun: bool): bool
  {
    if |s| == 0 then inRun else s[|s| - 1] == '\\'
  }

  /** What one leading character contributes: a slash opening a run, nothing inside one, or itself. */
  function CollapseHead(c: char, inRun: bool): string
  {
    if c == '\\' then (if inRun then "" else "/") else [c]
  }

  /** `CollapseFrom` one character at a time. */
  lemma CollapseCons(s: string, inRun: bool)
    requires |s| > 0
    ensures CollapseFrom(s, inRun) == CollapseHead(s[0], inRun) + CollapseFrom(s[1..], s[0] == '\\')
  {
  }

  lemma {:induction false} CollapseSplit(a: string, b: string, inRun: bool)
    ensures CollapseFrom(a + b, inRun) == CollapseFrom(a, inRun) + CollapseFrom(b, EndsInRun(a, inRun))
  {
    if |a| == 0 {
      assert a + b == b;
    } else {
      var run := a[0] == '\\';
      var head := CollapseHead(a[0], inRun);
      var tail := CollapseFrom(a[1..], run);
      var rb := CollapseFrom(b, EndsInRun(a[1..], run));
      assert CollapseFrom(a + b, inRun) == head + (tail + rb) by {
        CollapseSplit(a[1..], b, run);
        JsText.ConcatSplit(a, b);
        CollapseCons(a + b, inRun);
      }
      assert CollapseFrom(a, inRun) == head + tail by {
        CollapseCons(a, inRun);
      }
      assert EndsInRun(a[1..], run) == EndsInRun(a, inRun);
      assert head + (tail + rb) == (head + tail) + rb;
    }
  }

  /** Collapsing leaves no backslash behind. */
  lemma {:induction false} CollapseHasNoBackslash(s: string, inRun: bool)
    ensures forall k :: 0 <= k < |CollapseFrom(s, inRun)| ==> CollapseFrom(s, inRun)[k] != '\\'
  {
    if |s| > 0 {
      CollapseHasNoBackslash(s[1..], s[0] == '\\');
      CollapseCons(s, inRun);
      var head := CollapseHead(s[0], inRun);
      var tail := CollapseFrom(s[1..], s[0] == '\\');
      forall k | 0 <= k < |head + tail| ensures (head + tail)[k] != '\\' {
        if k >= |head| {
          assert (head + tail)[k] == tail[k - |head|];
        }
      }
    }
  }

  /** A piece that does not start with a backslash collapses the same after any prefix. */
  lemma CollapseNoRunStart(b: string, inRun: bool)
    requires |b| == 0 || b[0] != '\\'
    ensures CollapseFrom(b, inRun) == CollapseFrom(b, false)
  {
  }

  /** A string without backslashes is left as it is. */
  lemma {:induction false} CollapsePlain(s: string, inRun: bool)
    requires forall k :: 0 <= k < |s| ==> s[k] != '\\'
    ensures CollapseFrom(s, inRun) == s
  {
    if |s| > 0 {
      CollapsePlain(s[1..], false);
    }
  }

  /** `'/' + [uploadDir, safeName].filter(Boolean).join('/').replace(/\\+/g, '/')`. */
  function PublicName(uploadDir: string, safeName: string): (r: string)
    requires uploadDir != "" && safeName != ""
    ensures r == "/" + CollapseBackslashes(uploadDir) + "/" + CollapseBackslashes(safeName)
    ensures forall k :: 0 <= k < |r| ==> r[k] != '\\'
  {
    JoinCollapses(uploadDir, safeName);
    CollapseHasNoBackslash(uploadDir + "/" + safeName, false);
    "/" + CollapseBackslashes(uploadDir + "/" + safeName)
  }

  /** Collapsing the joined path collapses each part on its own: the `/` between them ends any run. */
  lemma JoinCollapses(uploadDir: string, safeName: string)
    ensures CollapseBackslashes(uploadDir + "/" + safeName) ==
            CollapseBackslashes(uploadDir) + "/" + CollapseBackslashes(safeName)
  {
    CollapseSplit(uploadDir, "/" + safeName, false);
    CollapseSplit("/", safeName, EndsInRun(uploadDir, false));
    CollapseNoRunStart("/" + safeName, EndsInRun(uploadDir, false));
    assert ("/" + safeName)[0] == '/';
    assert uploadDir + ("/" + safeName) == uploadDir + "/" + safeName;
  }

  /** A stored name without backslashes is published verbatim after the directory. */
  lemma PublicNameEndsWithStoredName(uploadDir: string, safeName: string)
    requires uploadDir != "" && safeName != ""
    requires forall k :: 0 <= k < |safeName| ==> safeName[k] != '\\'
    ensures PublicName(uploadDir, safeName) == "/" + CollapseBackslashes(uploadDir) + "/" + safeName
  {
    CollapsePlain(safeName, false);
  }

  // ---------------------------------------------------------------------------
  // uploadFile

  /**
   * `uploadFile`: missing file, too small, too large and not an image are refused in
   * that order; an accepted file is stored under a random name and answered with 201.
   */
  function UploadFile(file: Option<UploadedFile>, limits: SizeLimits, uploadPathEnv: string,
                      random: seq<byte>): (r: UploadOutcome)
    requires |random| == 16
    ensures file.None? ==> r == Rejected(NoFile)
    ensures file.Some? && |file.value.content| < limits.minSize ==> r == Rejected(TooSmall)
    ensures file.Some? && limits.minSize <= |file.value.content| && |file.value.content| > limits.maxSize ==>
              r == Rejected(TooLarge)
    ensures r == Rejected(NotAnImage) <==>
              file.Some? && limits.minSize <= |file.value.content| <= limits.maxSize &&
              MimeSniff.ValidateMimeType(file.value.content).None?
    ensures r.Created? <==>
              file.Some? && limits.minSize <= |file.value.content| <= limits.maxSize &&
              MimeSniff.ValidateMimeType(file.value.content).Some?
    ensures r.Created? ==>
              && file.Some?
              && limits.minSize <= r.stored.size <= limits.maxSize
              && r.stored.size == |file.value.content|
              && r.stored.status == 201
              && Some(r.stored.mimeType) == MimeSniff.ValidateMimeType(file.value.content)
              && JsText.StartsWith(r.stored.mimeType, "image/")
              && r.stored.fileName ==
                 "/" + CollapseBackslashes(UploadDir(uploadPathEnv)) + "/" + CollapseBackslashes(StoredName(random, file.value.originalName))
  {
    match file
    case None => Rejected(NoFile)
    case Some(f) =>
      var size := |f.content|;
      if size < limits.minSize then Rejected(TooSmall)
      else if size > limits.maxSize then Rejected(TooLarge)
      else
        var mime := MimeSniff.ValidateMimeType(f.content);
        if mime.None? || !JsText.StartsWith(mime.value, "image/") then Rejected(NotAnImage)
        else
          var safeName := StoredName(random, f.originalName);
          Created(Stored(201, PublicName(UploadDir(uploadPathEnv), safeName), size, mime.value))
  }

  /** The error every refusal is reported with. */
  function ToResult(o: UploadOutcome): (r: Result<Stored>)
    ensures o.Rejected? <==> r == Err(BadRequest)
  {
    match o
    case Rejected(_) => Err(BadRequest)
    case Created(s) => Ok(s)
  }

  /** Files with the same bytes and extension are stored alike: the basename never matters. */
  lemma NameIndependentOfBasename(f1: UploadedFile, f2: UploadedFile, limits: SizeLimits,
                                  uploadPathEnv: string, random: seq<byte>)
    requires |random| == 16
    requires f1.content == f2.content && Extname(f1.originalName) == Extname(f2.originalName)
    ensures UploadFile(Some(f1), limits, uploadPathEnv, random) == UploadFile(Some(f2), limits, uploadPathEnv, random)
  {
  }

  /** With an inverted range no file is accepted. */
  lemma EmptyRangeRejectsAll(file: Option<UploadedFile>, limits: SizeLimits, uploadPathEnv: string,
                             random: seq<byte>)
    requires |random| == 16 && limits.maxSize < limits.minSize
    ensures UploadFile(file, limits, uploadPathEnv, random).Rejected?
  {
  }
}
