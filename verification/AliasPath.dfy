/** Alias paths: percent-encoding (section 2.1 of RFC 3986) and the canonical form of a path. */
module AliasPath {
  import opened Base

  const SLASH: Byte := 0x2f
  const DOT: Byte := 0x2e
  const PERCENT: Byte := 0x25
  const BACKSLASH: Byte := 0x5c

  const MAX_ALIAS_PATH_BYTES := 2048

  const ROOT: Bytes := [SLASH]

  datatype PathError = InvalidAliasPath | ReservedAliasPath

  // ---------------------------------------------------------------- percent-encoding

  predicate IsUpper(b: Byte) { 0x41 <= b <= 0x5a }

  predicate IsLower(b: Byte) { 0x61 <= b <= 0x7a }

  predicate IsDigit(b: Byte) { 0x30 <= b <= 0x39 }

  /** The bytes a URL path keeps as they are: unreserved ones and $ & + , / : ; = @. */
  predicate KeptInPath(b: Byte) {
    || IsUpper(b) || IsLower(b) || IsDigit(b)
    || b == 0x2d || b == 0x5f || b == 0x2e || b == 0x7e
    || b == 0x24 || b == 0x26 || b == 0x2b || b == 0x2c || b == 0x2f || b == 0x3a || b == 0x3b || b == 0x3d || b == 0x40
  }

  function UpperHex(n: int): (b: Byte)
    requires 0 <= n < 16
  {
    if n < 10 then (0x30 + n) as Byte else (0x37 + n) as Byte
  }

  predicate IsHex(b: Byte) { IsDigit(b) || 0x41 <= b <= 0x46 || 0x61 <= b <= 0x66 }

  function HexValue(b: Byte): (n: int)
    requires IsHex(b)
    ensures 0 <= n < 16
  {
    if IsDigit(b) then b as int - 0x30 else if b < 0x60 then b as int - 0x37 else b as int - 0x57
  }

  function EscapeByte(b: Byte): Bytes {
    if KeptInPath(b) then [b] else [PERCENT, UpperHex(b as int / 16), UpperHex(b as int % 16)]
  }

  /** url.URL{Path: s}.EscapedPath() for a path that is not "*". */
  function Escape(s: Bytes): Bytes {
    if s == [] then [] else EscapeByte(s[0]) + Escape(s[1..])
  }

  /** url.PathUnescape. */
  function Unescape(s: Bytes): Option<Bytes>
    decreases |s|
  {
    if s == [] then Some([])
    else if s[0] == PERCENT then
      if |s| < 3 || !IsHex(s[1]) || !IsHex(s[2]) then None
      else
        var rest := Unescape(s[3..]);
        if rest.None? then None else Some([(16 * HexValue(s[1]) + HexValue(s[2])) as Byte] + rest.value)
    else
      var rest := Unescape(s[1..]);
      if rest.None? then None else Some([s[0]] + rest.value)
  }

  /** Decoding undoes encoding. */
  lemma {:induction false} UnescapeEscape(s: Bytes)
    ensures Unescape(Escape(s)) == Some(s)
  {
    if s != [] {
      var e, rest := EscapeByte(s[0]), Escape(s[1..]);
      UnescapeEscape(s[1..]);
      assert [s[0]] + s[1..] == s;
      if KeptInPath(s[0]) {
        assert (e + rest)[1..] == rest;
      } else {
        assert (e + rest)[3..] == rest;
        HexRoundTrip(s[0]);
      }
    }
  }

  lemma HexRoundTrip(b: Byte)
    ensures var h, l := UpperHex(b as int / 16), UpperHex(b as int % 16);
      IsHex(h) && IsHex(l) && (16 * HexValue(h) + HexValue(l)) as Byte == b
  {
  }

  /** A string without % decodes to itself. */
  lemma {:induction false} UnescapePlain(s: Bytes)
    requires PERCENT !in s
    ensures Unescape(s) == Some(s)
  {
    if s != [] {
      UnescapePlain(s[1..]);
      assert [s[0]] + s[1..] == s;
    }
  }

  /** Bytes that can occur in an encoded path. */
  predicate Encoded(b: Byte) { KeptInPath(b) || b == PERCENT }

  lemma {:induction false} EscapeAlphabet(s: Bytes)
    ensures forall i :: 0 <= i < |Escape(s)| ==> Encoded(Escape(s)[i])
  {
    if s != [] {
      EscapeAlphabet(s[1..]);
      forall i | 0 <= i < |EscapeByte(s[0])| ensures Encoded(EscapeByte(s[0])[i]) {}
    }
  }

  // ---------------------------------------------------------------- UTF-8

  predicate Continuation(b: Byte) { 0x80 <= b <= 0xbf }

  /** utf8.ValidString: no surrogates, no overlong forms, nothing above U+10FFFF. */
  predicate ValidUtf8(s: Bytes)
    decreases |s|
  {
    if s == [] then true
    else if s[0] < 0x80 then ValidUtf8(s[1..])
    else if 0xc2 <= s[0] <= 0xdf then |s| >= 2 && Continuation(s[1]) && ValidUtf8(s[2..])
    else if 0xe0 <= s[0] <= 0xef then
      && |s| >= 3 && Continuation(s[1]) && Continuation(s[2])
      && (s[0] == 0xe0 ==> 0xa0 <= s[1]) && (s[0] == 0xed ==> s[1] <= 0x9f)
      && ValidUtf8(s[3..])
    else if 0xf0 <= s[0] <= 0xf4 then
      && |s| >= 4 && Continuation(s[1]) && Continuation(s[2]) && Continuation(s[3])
      && (s[0] == 0xf0 ==> 0x90 <= s[1]) && (s[0] == 0xf4 ==> s[1] <= 0x8f)
      && ValidUtf8(s[4..])
    else false
  }

  lemma {:induction false} AsciiIsUtf8(s: Bytes)
    requires forall i :: 0 <= i < |s| ==> s[i] < 0x80
    ensures ValidUtf8(s)
  {
    if s != [] { AsciiIsUtf8(s[1..]); }
  }

  // ---------------------------------------------------------------- segments

  /** strings.Split(s, "/"). */
  function Split(s: Bytes): (r: seq<Bytes>)
    ensures |r| >= 1
  {
    if s == [] then [[]]
    else
      var rest := Split(s[1..]);
      if s[0] == SLASH then [[]] + rest else [[s[0]] + rest[0]] + rest[1..]
  }

  function Join(segments: seq<Bytes>): Bytes {
    if segments == [] then []
    else if |segments| == 1 then segments[0]
    else segments[0] + [SLASH] + Join(segments[1..])
  }

  predicate IsDots(segment: Bytes) { segment == [DOT] || segment == [DOT, DOT] }

  /** The element loop of path.Clean for a rooted path; `kept` is the output so far. */
  function CleanSegments(segments: seq<Bytes>, kept: seq<Bytes>): seq<Bytes> {
    if segments == [] then kept
    else if segments[0] == [] || segments[0] == [DOT] then CleanSegments(segments[1..], kept)
    else if segments[0] == [DOT, DOT] then CleanSegments(segments[1..], if kept == [] then [] else kept[..|kept| - 1])
    else CleanSegments(segments[1..], kept + [segments[0]])
  }

  /** path.Clean of a rooted path. */
  function Clean(p: Bytes): Bytes
    requires p != [] && p[0] == SLASH
  {
    [SLASH] + Join(CleanSegments(Split(p[1..]), []))
  }

  /** fs.ValidPath. */
  predicate ValidPath(name: Bytes) {
    && ValidUtf8(name)
    && (name == [DOT] || forall seg :: seg in Split(name) ==> seg != [] && !IsDots(seg))
  }

  predicate NoSlash(segments: seq<Bytes>) {
    forall seg :: seg in segments ==> SLASH !in seg
  }

  lemma {:induction false} SplitHasNoSlash(s: Bytes)
    ensures NoSlash(Split(s))
  {
    if s != [] { SplitHasNoSlash(s[1..]); }
  }

  lemma {:induction false} SplitOne(segment: Bytes)
    requires SLASH !in segment
    ensures Split(segment) == [segment]
  {
    if segment != [] {
      SplitOne(segment[1..]);
      assert [segment[0]] + segment[1..] == segment;
    }
  }

  lemma {:induction false} SplitAppend(segment: Bytes, rest: Bytes)
    requires SLASH !in segment
    ensures Split(segment + [SLASH] + rest) == [segment] + Split(rest)
  {
    var s := segment + [SLASH] + rest;
    if segment == [] {
      assert s[1..] == rest;
    } else {
      assert s[1..] == segment[1..] + [SLASH] + rest;
      SplitAppend(segment[1..], rest);
      assert [segment[0]] + segment[1..] == segment;
    }
  }

  lemma {:induction false} SplitJoin(segments: seq<Bytes>)
    requires segments != [] && NoSlash(segments)
    ensures Split(Join(segments)) == segments
  {
    if |segments| == 1 {
      SplitOne(segments[0]);
    } else {
      SplitJoin(segments[1..]);
      SplitAppend(segments[0], Join(segments[1..]));
    }
  }

  function NonEmpty(segments: seq<Bytes>): (r: seq<Bytes>)
    ensures forall seg :: seg in r ==> seg in segments && seg != []
  {
    if segments == [] then []
    else if segments[0] == [] then NonEmpty(segments[1..])
    else [segments[0]] + NonEmpty(segments[1..])
  }

  lemma {:induction false} CleanDropsEmpty(segments: seq<Bytes>, kept: seq<Bytes>)
    requires forall seg :: seg in segments ==> !IsDots(seg)
    ensures CleanSegments(segments, kept) == kept + NonEmpty(segments)
  {
    if segments != [] {
      var first := segments[0];
      assert first in segments;
      if first == [] {
        CleanDropsEmpty(segments[1..], kept);
      } else {
        CleanDropsEmpty(segments[1..], kept + [first]);
        assert kept + [first] + NonEmpty(segments[1..]) == kept + NonEmpty(segments);
      }
    }
  }

  /** A clean rooted path without dot segments has no empty segment, unless it is the root. */
  lemma CleanMeansNoEmptySegment(p: Bytes)
    requires p != [] && p[0] == SLASH && Clean(p) == p && p != ROOT
    requires forall seg :: seg in Split(p[1..]) ==> !IsDots(seg)
    ensures forall seg :: seg in Split(p[1..]) ==> seg != []
  {
    var segments := Split(p[1..]);
    CleanDropsEmpty(segments, []);
    var kept := NonEmpty(segments);
    assert [] + kept == kept;
    assert p[1..] == Join(kept);
    assert p == [SLASH] + p[1..];
    assert kept != [];
    SplitHasNoSlash(p[1..]);
    SplitJoin(kept);
  }

  // ---------------------------------------------------------------- NormalizeAliasPath

  predicate Forbidden(b: Byte) {
    b == BACKSLASH || b == 0 || b == 0x3f || b == 0x23 || b == 0x0d || b == 0x0a || b == 0x09
  }

  predicate ContainsForbidden(s: Bytes) { exists i :: 0 <= i < |s| && Forbidden(s[i]) }

  predicate HasSuffix(s: Bytes, t: Bytes) { |t| <= |s| && s[|s| - |t|..] == t }

  /** The last character of a valid UTF-8 string is white space. */
  predicate EndsInSpace(s: Bytes) {
    s != [] &&
    var last := s[|s| - 1];
    || 0x09 <= last <= 0x0d || last == 0x20
    || HasSuffix(s, [0xc2, 0x85]) || HasSuffix(s, [0xc2, 0xa0]) || HasSuffix(s, [0xe1, 0x9a, 0x80])
    || (0x80 <= last <= 0x8a && HasSuffix(s, [0xe2, 0x80, last]))
    || HasSuffix(s, [0xe2, 0x80, 0xa8]) || HasSuffix(s, [0xe2, 0x80, 0xa9]) || HasSuffix(s, [0xe2, 0x80, 0xaf])
    || HasSuffix(s, [0xe2, 0x81, 0x9f]) || HasSuffix(s, [0xe3, 0x80, 0x80])
  }

  predicate DoubleSlash(s: Bytes) { |s| >= 2 && s[0] == SLASH && s[1] == SLASH }

  /** The checks on the raw spelling; a path starts with '/', so only its end can need trimming. */
  predicate RawOk(raw: Bytes) {
    && raw != [] && |raw| <= MAX_ALIAS_PATH_BYTES && raw[0] == SLASH && !DoubleSlash(raw) && ValidUtf8(raw)
    && !EndsInSpace(raw) && !ContainsForbidden(raw)
  }

  /** The checks on the decoded path. */
  predicate DecodedOk(decoded: Bytes)
    requires decoded != [] && decoded[0] == SLASH
  {
    && ValidUtf8(decoded)
    && PERCENT !in decoded && !ContainsForbidden(decoded) && !DoubleSlash(decoded)
    && (forall seg :: seg in Split(decoded) ==> !IsDots(seg))
    && Clean(decoded) == decoded
  }

  function NormalizeAliasPath(raw: Bytes): (r: Result<Bytes, PathError>) {
    if !RawOk(raw) then Err(InvalidAliasPath)
    else
      var decoded := Unescape(raw);
      if decoded.None? then Err(InvalidAliasPath)
      else
        UnescapeKeepsSlash(raw);
        if !DecodedOk(decoded.value) then Err(InvalidAliasPath)
        else
          var canonical := Escape(decoded.value);
          if |canonical| > MAX_ALIAS_PATH_BYTES || (PERCENT in raw && raw != canonical) then Err(InvalidAliasPath)
          else if IsReservedAliasPath(canonical) then Err(ReservedAliasPath)
          else Ok(canonical)
  }

  lemma UnescapeKeepsSlash(raw: Bytes)
    requires raw != [] && raw[0] == SLASH
    ensures Unescape(raw).Some? ==> Unescape(raw).value != [] && Unescape(raw).value[0] == SLASH
  {
  }

  /** The form every stored alias path has. */
  predicate Canonical(path: Bytes) { NormalizeAliasPath(path) == Ok(path) }

  // ---------------------------------------------------------------- reserved routes

  predicate Under(decoded: Bytes, prefix: Bytes) { decoded == prefix || prefix + [SLASH] <= decoded }

  function Ascii(s: string): Bytes
    requires forall i :: 0 <= i < |s| ==> s[i] < 128 as char
  {
    seq(|s|, i requires 0 <= i < |s| => s[i] as int as Byte)
  }

  predicate IsReservedAliasPath(canonical: Bytes) {
    var d := Unescape(canonical);
    d.None? ||
    (|| d.value == ROOT
     || Under(d.value, Ascii("/api/v1")) || Under(d.value, Ascii("/admin")) || Under(d.value, Ascii("/assets"))
     || Under(d.value, Ascii("/brand"))
     || d.value == Ascii("/healthz") || d.value == Ascii("/readyz")
     || (Ascii("/image/") <= d.value && IsUuid(d.value[7..])))
  }

  predicate HexPair(s: Bytes, i: nat) { i + 2 <= |s| && IsHex(s[i]) && IsHex(s[i + 1]) }

  predicate DashedUuid(s: Bytes) {
    && |s| >= 36 && s[8] == 0x2d && s[13] == 0x2d && s[18] == 0x2d && s[23] == 0x2d
    && forall i :: i in {0, 2, 4, 6, 9, 11, 14, 16, 19, 21, 24, 26, 28, 30, 32, 34} ==> HexPair(s, i)
  }

  function Lower(b: Byte): Byte { if IsUpper(b) then b + 32 else b }

  /** uuid.Parse accepts: plain, urn:uuid: prefix, enclosed in any two bytes, or 32 hexadecimal digits. */
  predicate IsUuid(s: Bytes) {
    || (|s| == 36 && DashedUuid(s))
    || (|s| == 45 && (forall i :: 0 <= i < 9 ==> Lower(s[i]) == Ascii("urn:uuid:")[i]) && DashedUuid(s[9..]))
    || (|s| == 38 && DashedUuid(s[1..]))
    || (|s| == 32 && forall i :: 0 <= i < 16 ==> HexPair(s, 2 * i))
  }

  // ---------------------------------------------------------------- what normalisation guarantees

  lemma {:induction false} EscapeStartsWithSlash(s: Bytes)
    requires s != [] && s[0] == SLASH
    ensures Escape(s) != [] && Escape(s)[0] == SLASH
    ensures DoubleSlash(Escape(s)) ==> DoubleSlash(s)
  {
    assert Escape(s) == [SLASH] + Escape(s[1..]);
    if |s| >= 2 { assert Escape(s[1..]) == EscapeByte(s[1]) + Escape(s[2..]); }
  }

  lemma EncodedByteIsPlain(b: Byte)
    requires Encoded(b)
    ensures 0x20 < b < 0x7f && !Forbidden(b)
  {
  }

  /** Encoded bytes are ASCII, never white space, and never forbidden. */
  lemma EscapeIsPlain(s: Bytes)
    ensures ValidUtf8(Escape(s)) && !EndsInSpace(Escape(s)) && !ContainsForbidden(Escape(s))
  {
    EscapeAlphabet(s);
    var e := Escape(s);
    forall i | 0 <= i < |e| ensures 0x20 < e[i] < 0x7f && !Forbidden(e[i]) { EncodedByteIsPlain(e[i]); }
    AsciiIsUtf8(e);
  }

  /** An accepted path and its canonical form decode to the same path. */
  lemma CanonicalKeepsMeaning(raw: Bytes)
    requires NormalizeAliasPath(raw).Ok?
    ensures Unescape(raw).Some? && Unescape(NormalizeAliasPath(raw).value) == Unescape(raw)
  {
    UnescapeEscape(Unescape(raw).value);
  }

  lemma EscapedIsRawOk(decoded: Bytes)
    requires decoded != [] && decoded[0] == SLASH && !DoubleSlash(decoded) && |Escape(decoded)| <= MAX_ALIAS_PATH_BYTES
    ensures RawOk(Escape(decoded))
  {
    EscapeStartsWithSlash(decoded);
    EscapeIsPlain(decoded);
  }

  lemma EscapedIsCanonical(decoded: Bytes)
    requires decoded != [] && decoded[0] == SLASH && DecodedOk(decoded)
    requires |Escape(decoded)| <= MAX_ALIAS_PATH_BYTES && !IsReservedAliasPath(Escape(decoded))
    ensures Canonical(Escape(decoded))
  {
    EscapedIsRawOk(decoded);
    UnescapeEscape(decoded);
  }

  /** Normalising twice is normalising once. */
  lemma NormalizeIdempotent(raw: Bytes)
    requires NormalizeAliasPath(raw).Ok?
    ensures Canonical(NormalizeAliasPath(raw).value)
  {
    UnescapeKeepsSlash(raw);
    EscapedIsCanonical(Unescape(raw).value);
  }

  /** A canonical path has at most two accepted spellings: itself and its decoded form. */
  lemma AtMostTwoSpellings(raw: Bytes)
    requires NormalizeAliasPath(raw).Ok?
    ensures raw == NormalizeAliasPath(raw).value || Some(raw) == Unescape(NormalizeAliasPath(raw).value)
  {
    CanonicalKeepsMeaning(raw);
    if PERCENT !in raw { UnescapePlain(raw); }
  }

  /** The decoded form is accepted as a spelling exactly when it passes the raw checks itself. */
  lemma DecodedSpellingAccepted(raw: Bytes)
    requires NormalizeAliasPath(raw).Ok?
    ensures var decoded := Unescape(raw).value;
      NormalizeAliasPath(decoded) == NormalizeAliasPath(raw) <==> |decoded| <= MAX_ALIAS_PATH_BYTES && !EndsInSpace(decoded)
  {
    UnescapeKeepsSlash(raw);
    UnescapePlain(Unescape(raw).value);
  }

  lemma CanonicalIsNotRoot(path: Bytes)
    requires Canonical(path)
    ensures path != ROOT
  {
    UnescapePlain(ROOT);
  }

  /** Every accepted path decodes to a relative path the file system layer accepts as it is. */
  lemma AcceptedPathIsValidDownstream(raw: Bytes)
    requires NormalizeAliasPath(raw).Ok?
    ensures var relative := Unescape(NormalizeAliasPath(raw).value).value[1..];
      relative != [] && ValidPath(relative) && BACKSLASH !in relative && 0 !in relative
  {
    CanonicalKeepsMeaning(raw);
    UnescapeKeepsSlash(raw);
    var decoded := Unescape(raw).value;
    assert Split(decoded) == [[]] + Split(decoded[1..]);
    forall seg | seg in Split(decoded[1..]) ensures !IsDots(seg) { assert seg in Split(decoded); }
    assert decoded == [SLASH] + decoded[1..];
    CleanMeansNoEmptySegment(decoded);
    forall b | b in decoded[1..] ensures !Forbidden(b) {
      var i :| 0 <= i < |decoded[1..]| && decoded[1..][i] == b;
      assert decoded[i + 1] == b;
    }
  }

  /** The listing encodes a scanned relative path; accepted encodings are canonical already. */
  lemma ScannedPathIsCanonical(relative: Bytes)
    requires NormalizeAliasPath(Escape([SLASH] + relative)).Ok?
    ensures NormalizeAliasPath(Escape([SLASH] + relative)).value == Escape([SLASH] + relative)
    ensures Unescape(Escape([SLASH] + relative)).value[1..] == relative
  {
    UnescapeEscape([SLASH] + relative);
  }

  /** Distinct scanned files get distinct listed paths. */
  lemma ScannedPathsDistinct(relative: Bytes, other: Bytes)
    requires Escape([SLASH] + relative) == Escape([SLASH] + other)
    ensures relative == other
  {
    UnescapeEscape([SLASH] + relative);
    UnescapeEscape([SLASH] + other);
    assert ([SLASH] + relative)[1..] == relative && ([SLASH] + other)[1..] == other;
  }
}
