/**
 What NormalizeAliasPath answers, in terms of the characters of its input: which paths it accepts,
 and the one spelling it gives them (sections 2.1 and 3.3 of RFC 3986).
 */
module AliasSpelling {
  import opened Base
  import AliasPath
  import Utf8

  // ---------------------------------------------------------------- characters

  /** Letters, digits and - _ . ~ $ & + , / : ; = @ stand for themselves. */
  predicate Literal(b: Byte) {
    var c := b as int as char;
    || 'a' <= c <= 'z' || 'A' <= c <= 'Z' || '0' <= c <= '9'
    || c == '-' || c == '_' || c == '.' || c == '~' || c == '$' || c == '&' || c == '+' || c == ','
    || c == '/' || c == ':' || c == ';' || c == '=' || c == '@'
  }

  /** The value of an upper-case hexadecimal digit. */
  function UpperDigit(b: Byte): Option<nat> {
    var c := b as int as char;
    if '0' <= c <= '9' then Some(c as int - '0' as int)
    else if 'A' <= c <= 'F' then Some(10 + c as int - 'A' as int)
    else None
  }

  function Digit(b: Byte): Option<nat> {
    var c := b as int as char;
    if 'a' <= c <= 'f' then Some(10 + c as int - 'a' as int) else UpperDigit(b)
  }

  predicate IsPercent(b: Byte) { b as int as char == '%' }

  // ---------------------------------------------------------------- percent-encoding

  /** Decoding: a percent sign and two hexadecimal digits are one byte, any other byte is itself. */
  predicate Decodes(s: Bytes, d: Bytes)
    decreases |s|
  {
    if s == [] then d == []
    else if d == [] then false
    else if IsPercent(s[0]) then
      && |s| >= 3 && Digit(s[1]).Some? && Digit(s[2]).Some?
      && d[0] as int == 16 * Digit(s[1]).value + Digit(s[2]).value && Decodes(s[3..], d[1..])
    else d[0] == s[0] && Decodes(s[1..], d[1..])
  }

  /** PathUnescape decodes, and fails exactly on a percent sign without two digits. */
  lemma {:induction false} UnescapeDecodes(s: Bytes, d: Bytes)
    ensures AliasPath.Unescape(s) == Some(d) <==> Decodes(s, d)
    decreases |s|
  {
    if s != [] && d != [] {
      assert d == [d[0]] + d[1..];
      if IsPercent(s[0]) {
        if |s| >= 3 { UnescapeDecodes(s[3..], d[1..]); }
      } else {
        UnescapeDecodes(s[1..], d[1..]);
      }
    }
  }

  /** At each place stands a literal character, or a triplet with upper-case digits for a byte that is none. */
  predicate WellAt(c: Bytes, i: nat)
    requires i < |c|
  {
    if IsPercent(c[i]) then
      && i + 2 < |c| && UpperDigit(c[i + 1]).Some? && UpperDigit(c[i + 2]).Some?
      && !Literal((16 * UpperDigit(c[i + 1]).value + UpperDigit(c[i + 2]).value) as Byte)
    else Literal(c[i])
  }

  /** The canonical spelling. */
  predicate WellSpelled(c: Bytes) { forall i :: 0 <= i < |c| ==> WellAt(c, i) }

  /** Behind a prefix the places are the same. */
  lemma WellBehind(prefix: Bytes, c: Bytes, i: nat)
    requires i < |c|
    ensures WellAt(prefix + c, |prefix| + i) <==> WellAt(c, i)
  {
    var s := prefix + c;
    assert s[|prefix| + i] == c[i];
    if i + 2 < |c| { assert s[|prefix| + i + 1] == c[i + 1] && s[|prefix| + i + 2] == c[i + 2]; }
  }

  lemma WellSpelledTail(c: Bytes, n: nat)
    requires WellSpelled(c) && n <= |c|
    ensures WellSpelled(c[n..])
  {
    assert c == c[..n] + c[n..];
    forall i | 0 <= i < |c[n..]| ensures WellAt(c[n..], i) { WellBehind(c[..n], c[n..], i); }
  }

  lemma EscapedByte(b: Byte)
    ensures var e := AliasPath.EscapeByte(b);
      if Literal(b) then e == [b]
      else |e| == 3 && IsPercent(e[0]) && UpperDigit(e[1]) == Some(b as int / 16) && UpperDigit(e[2]) == Some(b as int % 16)
    ensures AliasPath.KeptInPath(b) <==> Literal(b)
  {
  }

  lemma EscapedByteIsWell(b: Byte, rest: Bytes, i: nat)
    requires i < |AliasPath.EscapeByte(b)|
    ensures WellAt(AliasPath.EscapeByte(b) + rest, i)
  {
    EscapedByte(b);
    var e := AliasPath.EscapeByte(b);
    assert forall j :: 0 <= j < |e| ==> (e + rest)[j] == e[j];
  }

  lemma {:induction false} EscapeIsWellSpelled(d: Bytes)
    ensures WellSpelled(AliasPath.Escape(d))
  {
    if d != [] {
      var e, rest := AliasPath.EscapeByte(d[0]), AliasPath.Escape(d[1..]);
      EscapeIsWellSpelled(d[1..]);
      forall i | 0 <= i < |e + rest| ensures WellAt(e + rest, i) {
        if i < |e| { EscapedByteIsWell(d[0], rest, i); } else { WellBehind(e, rest, i - |e|); }
      }
    }
  }

  lemma DigitsDiffer(a: Byte, b: Byte)
    requires UpperDigit(a).Some? && UpperDigit(a) == UpperDigit(b)
    ensures a == b
  {
  }

  /** The first byte of the path decides how its spelling begins. */
  lemma LiteralFirst(c: Bytes, d: Bytes)
    requires c != [] && WellAt(c, 0) && Decodes(c, d) && d != [] && !IsPercent(c[0])
    ensures Literal(d[0]) && c[0] == d[0] && Decodes(c[1..], d[1..])
  {
  }

  lemma TripletFirst(c: Bytes, d: Bytes)
    requires c != [] && WellAt(c, 0) && Decodes(c, d) && d != [] && IsPercent(c[0])
    ensures !Literal(d[0]) && |c| >= 3 && Decodes(c[3..], d[1..])
    ensures UpperDigit(c[1]) == Some(d[0] as int / 16) && UpperDigit(c[2]) == Some(d[0] as int % 16)
  {
    assert Digit(c[1]) == UpperDigit(c[1]) && Digit(c[2]) == UpperDigit(c[2]);
  }

  /** A decoded path has only one canonical spelling. */
  lemma {:induction false} SpellingIsUnique(c: Bytes, other: Bytes, d: Bytes)
    requires WellSpelled(c) && WellSpelled(other) && Decodes(c, d) && Decodes(other, d)
    ensures c == other
    decreases |d|
  {
    if d != [] {
      assert WellAt(c, 0) && WellAt(other, 0);
      if IsPercent(c[0]) { TripletFirst(c, d); } else { LiteralFirst(c, d); }
      if IsPercent(other[0]) { TripletFirst(other, d); } else { LiteralFirst(other, d); }
      var n := if IsPercent(c[0]) then 3 else 1;
      SameStart(c, other, n);
      WellSpelledTail(c, n);
      WellSpelledTail(other, n);
      SpellingIsUnique(c[n..], other[n..], d[1..]);
      assert c == c[..n] + c[n..] && other == other[..n] + other[n..];
    }
  }

  lemma SameStart(c: Bytes, other: Bytes, n: nat)
    requires n <= |c| && n <= |other| && (n == 1 || n == 3) && c[0] == other[0]
    requires n == 3 ==> UpperDigit(c[1]).Some? && UpperDigit(c[1]) == UpperDigit(other[1])
    requires n == 3 ==> UpperDigit(c[2]).Some? && UpperDigit(c[2]) == UpperDigit(other[2])
    ensures c[..n] == other[..n]
  {
    if n == 3 {
      DigitsDiffer(c[1], other[1]);
      DigitsDiffer(c[2], other[2]);
    }
  }

  // ---------------------------------------------------------------- segments

  /** A rooted path by its segments. */
  function PathOf(segments: seq<Bytes>): Bytes {
    if segments == [] then [] else ['/' as Byte] + segments[0] + PathOf(segments[1..])
  }

  predicate GoodSegment(seg: Bytes) {
    seg != [] && '/' as Byte !in seg && seg != ['.' as Byte] && seg != ['.' as Byte, '.' as Byte]
  }

  predicate GoodSegments(segments: seq<Bytes>) {
    segments != [] && forall i :: 0 <= i < |segments| ==> GoodSegment(segments[i])
  }

  lemma {:induction false} PathIsJoin(segments: seq<Bytes>)
    requires segments != []
    ensures PathOf(segments) == [AliasPath.SLASH] + AliasPath.Join(segments)
  {
    if |segments| == 1 {
      assert segments[1..] == [];
    } else {
      PathIsJoin(segments[1..]);
    }
  }

  lemma {:induction false} JoinSplit(s: Bytes)
    ensures AliasPath.Join(AliasPath.Split(s)) == s
  {
    if s != [] {
      var rest := AliasPath.Split(s[1..]);
      JoinSplit(s[1..]);
      assert s == [s[0]] + s[1..];
      if s[0] == AliasPath.SLASH {
        assert ([[]] + rest)[1..] == rest;
      } else {
        var first := [[s[0]] + rest[0]] + rest[1..];
        assert first[1..] == rest[1..];
        if |rest| > 1 { assert AliasPath.Join(rest) == rest[0] + [AliasPath.SLASH] + AliasPath.Join(rest[1..]); }
      }
    }
  }

  /** A path of good segments splits into them, behind the empty piece before the root. */
  lemma GoodPathSplits(segments: seq<Bytes>)
    requires GoodSegments(segments)
    ensures var d := PathOf(segments);
      d != [] && d[0] == AliasPath.SLASH && AliasPath.Split(d[1..]) == segments && AliasPath.Split(d) == [[]] + segments
  {
    var d := PathOf(segments);
    PathIsJoin(segments);
    assert d[1..] == AliasPath.Join(segments);
    assert AliasPath.NoSlash(segments);
    AliasPath.SplitJoin(segments);
  }

  lemma FirstSegment(segments: seq<Bytes>)
    requires GoodSegments(segments)
    ensures var d := PathOf(segments); |d| >= 2 && d[1] != AliasPath.SLASH
  {
    assert GoodSegment(segments[0]);
    assert PathOf(segments)[1] == segments[0][0];
  }

  /** And it is clean. */
  lemma GoodPathIsClean(segments: seq<Bytes>)
    requires GoodSegments(segments)
    ensures var d := PathOf(segments); d != [] && d[0] == AliasPath.SLASH && AliasPath.Clean(d) == d
  {
    GoodPathSplits(segments);
    forall seg | seg in segments ensures !AliasPath.IsDots(seg) {
      var i :| 0 <= i < |segments| && segments[i] == seg;
      assert GoodSegment(segments[i]);
    }
    AliasPath.CleanDropsEmpty(segments, []);
    KeptAll(segments);
    assert [] + segments == segments;
    PathIsJoin(segments);
  }

  lemma {:induction false} KeptAll(segments: seq<Bytes>)
    requires forall i :: 0 <= i < |segments| ==> segments[i] != []
    ensures AliasPath.NonEmpty(segments) == segments
  {
    if segments != [] { KeptAll(segments[1..]); }
  }

  /** A clean path other than the root is a path of good segments. */
  lemma CleanPathIsGood(d: Bytes) returns (segments: seq<Bytes>)
    requires d != [] && d[0] == AliasPath.SLASH && d != AliasPath.ROOT && AliasPath.Clean(d) == d
    requires forall seg :: seg in AliasPath.Split(d) ==> !AliasPath.IsDots(seg)
    ensures GoodSegments(segments) && PathOf(segments) == d
  {
    segments := AliasPath.Split(d[1..]);
    assert AliasPath.Split(d) == [[]] + segments;
    assert forall seg :: seg in segments ==> seg in AliasPath.Split(d);
    AliasPath.CleanMeansNoEmptySegment(d);
    AliasPath.SplitHasNoSlash(d[1..]);
    forall i | 0 <= i < |segments| ensures GoodSegment(segments[i]) { assert segments[i] in segments; }
    PathIsJoin(segments);
    JoinSplit(d[1..]);
    assert d == [AliasPath.SLASH] + d[1..];
  }

  // ---------------------------------------------------------------- reserved paths

  predicate Reads(d: Bytes, text: string) { |d| == |text| && forall i :: 0 <= i < |d| ==> d[i] as int == text[i] as int }

  /** The path is the given one, or lies below it. */
  predicate Within(d: Bytes, text: string) {
    |text| <= |d| && Reads(d[..|text|], text) && (|d| == |text| || d[|text|] as int as char == '/')
  }

  /** xxxxxxxx-xxxx-xxxx-xxxx-xxxxxxxxxxxx */
  predicate UuidChar(b: Byte, i: nat) {
    if i == 8 || i == 13 || i == 18 || i == 23 then b as int as char == '-' else Digit(b).Some?
  }

  predicate UuidForm(s: Bytes) { |s| == 36 && forall i :: 0 <= i < 36 ==> UuidChar(s[i], i) }

  /** The forms uuid.Parse accepts: plain, as a URN, between two bytes, or without dashes. */
  predicate UuidText(s: Bytes) {
    || UuidForm(s)
    || (|s| == 45 && UuidForm(s[9..]) && forall i :: 0 <= i < 9 ==>
          (s[i] as int == "urn:uuid:"[i] as int || s[i] as int == "URN:UUID:"[i] as int))
    || (|s| == 38 && UuidForm(s[1..37]))
    || (|s| == 32 && forall i :: 0 <= i < 32 ==> Digit(s[i]).Some?)
  }

  /** The routes of the application. */
  predicate Reserved(d: Bytes) {
    || Reads(d, "/") || Within(d, "/api/v1") || Within(d, "/admin") || Within(d, "/assets") || Within(d, "/brand")
    || Reads(d, "/healthz") || Reads(d, "/readyz")
    || (|d| >= 7 && Reads(d[..7], "/image/") && UuidText(d[7..]))
  }

  predicate Ascii(text: string) { forall i :: 0 <= i < |text| ==> text[i] < 128 as char }

  lemma ReadsExactly(d: Bytes, text: string)
    requires Ascii(text)
    ensures Reads(d, text) <==> d == AliasPath.Ascii(text)
  {
  }

  lemma WithinExactly(d: Bytes, text: string)
    requires Ascii(text)
    ensures Within(d, text) <==> AliasPath.Under(d, AliasPath.Ascii(text))
  {
    var p := AliasPath.Ascii(text);
    if |text| <= |d| { ReadsExactly(d[..|text|], text); }
    if |d| == |text| { assert d[..|text|] == d; }
    if |d| > |text| { assert d[..|text| + 1] == d[..|text|] + [d[|text|]]; }
  }

  lemma HexDigits(b: Byte)
    ensures AliasPath.IsHex(b) <==> Digit(b).Some?
  {
  }

  lemma DashedExactly(s: Bytes)
    requires |s| >= 36
    ensures UuidForm(s[..36]) <==> AliasPath.DashedUuid(s)
  {
    var t := s[..36];
    forall i | 0 <= i < 36 ensures t[i] == s[i] && (AliasPath.IsHex(s[i]) <==> Digit(t[i]).Some?) { HexDigits(s[i]); }
    if AliasPath.DashedUuid(s) {
      forall i | 0 <= i < 36 ensures UuidChar(t[i], i) {
        if i in {0, 2, 4, 6, 9, 11, 14, 16, 19, 21, 24, 26, 28, 30, 32, 34} { assert AliasPath.HexPair(s, i); }
        else if i !in {8, 13, 18, 23} { assert AliasPath.HexPair(s, i - 1); }
      }
    }
    if UuidForm(t) {
      assert UuidChar(t[8], 8) && UuidChar(t[13], 13) && UuidChar(t[18], 18) && UuidChar(t[23], 23);
      forall i | i in {0, 2, 4, 6, 9, 11, 14, 16, 19, 21, 24, 26, 28, 30, 32, 34} ensures AliasPath.HexPair(s, i) {
        assert UuidChar(t[i], i) && UuidChar(t[i + 1], i + 1);
      }
    }
  }

  lemma UrnPrefix(s: Bytes)
    requires |s| >= 9
    ensures (forall i :: 0 <= i < 9 ==> AliasPath.Lower(s[i]) == AliasPath.Ascii("urn:uuid:")[i]) <==>
            (forall i :: 0 <= i < 9 ==> (s[i] as int == "urn:uuid:"[i] as int || s[i] as int == "URN:UUID:"[i] as int))
  {
    forall i | 0 <= i < 9
      ensures AliasPath.Lower(s[i]) == AliasPath.Ascii("urn:uuid:")[i] <==>
              (s[i] as int == "urn:uuid:"[i] as int || s[i] as int == "URN:UUID:"[i] as int)
    {
      assert "urn:uuid:"[i] == 'u' || "urn:uuid:"[i] == 'r' || "urn:uuid:"[i] == 'n' || "urn:uuid:"[i] == ':'
        || "urn:uuid:"[i] == 'i' || "urn:uuid:"[i] == 'd';
    }
  }

  lemma UuidExactly(s: Bytes)
    ensures UuidText(s) <==> AliasPath.IsUuid(s)
  {
    if |s| == 36 {
      assert s[..36] == s;
      DashedExactly(s);
    }
    if |s| == 45 {
      assert s[9..][..36] == s[9..];
      DashedExactly(s[9..]);
      UrnPrefix(s);
    }
    if |s| == 38 {
      assert s[1..][..36] == s[1..37];
      DashedExactly(s[1..]);
    }
    if |s| == 32 { HexPairs(s); }
  }

  lemma HexPairs(s: Bytes)
    requires |s| == 32
    ensures (forall i :: 0 <= i < 16 ==> AliasPath.HexPair(s, 2 * i)) <==> (forall i :: 0 <= i < 32 ==> Digit(s[i]).Some?)
  {
    forall i | 0 <= i < 32 ensures AliasPath.IsHex(s[i]) <==> Digit(s[i]).Some? { HexDigits(s[i]); }
    if forall i :: 0 <= i < 16 ==> AliasPath.HexPair(s, 2 * i) {
      forall i | 0 <= i < 32 ensures Digit(s[i]).Some? { assert AliasPath.HexPair(s, 2 * (i / 2)); }
    }
  }

  /** A route is reserved exactly when its decoded form is one of the application's. */
  lemma ReservedExactly(c: Bytes, d: Bytes)
    requires AliasPath.Unescape(c) == Some(d)
    ensures AliasPath.IsReservedAliasPath(c) <==> Reserved(d)
  {
    ReadsExactly(d, "/");
    assert AliasPath.Ascii("/") == AliasPath.ROOT;
    WithinExactly(d, "/api/v1");
    WithinExactly(d, "/admin");
    WithinExactly(d, "/assets");
    WithinExactly(d, "/brand");
    ReadsExactly(d, "/healthz");
    ReadsExactly(d, "/readyz");
    ImageRouteExactly(d);
  }

  lemma ImageRouteExactly(d: Bytes)
    ensures (AliasPath.Ascii("/image/") <= d && AliasPath.IsUuid(d[7..])) <==>
            (|d| >= 7 && Reads(d[..7], "/image/") && UuidText(d[7..]))
  {
    assert |AliasPath.Ascii("/image/")| == 7;
    if |d| >= 7 {
      ReadsExactly(d[..7], "/image/");
      UuidExactly(d[7..]);
    }
  }

  // ---------------------------------------------------------------- what is accepted, and how it is spelled

  /** Characters no alias may contain, raw or decoded. */
  predicate Barred(b: Byte) {
    var c := b as int as char;
    c == '\\' || c == '?' || c == '#' || b == 0 || b == 9 || b == 10 || b == 13
  }

  predicate Free(s: Bytes) { forall i :: 0 <= i < |s| ==> !Barred(s[i]) }

  predicate NoPercent(s: Bytes) { forall i :: 0 <= i < |s| ==> !IsPercent(s[i]) }

  lemma FreeExactly(s: Bytes)
    ensures Free(s) <==> !AliasPath.ContainsForbidden(s)
    ensures NoPercent(s) <==> AliasPath.PERCENT !in s
  {
    forall i | 0 <= i < |s| ensures Barred(s[i]) <==> AliasPath.Forbidden(s[i]) {}
  }

  /** What is asked of a request: `runes` are its characters. */
  predicate RawFine(raw: Bytes, runes: seq<Utf8.Rune>) {
    && 1 <= |raw| <= 2048 && raw[0] as int as char == '/' && !(|raw| >= 2 && raw[1] as int as char == '/')
    && Utf8.Encodes(raw, runes) && !Utf8.White(runes[|runes| - 1]) && Free(raw)
  }

  /** What is asked of the path it stands for: characters, and segments. */
  predicate PathFine(d: Bytes, runes: seq<Utf8.Rune>, segments: seq<Bytes>) {
    && Utf8.Encodes(d, runes) && Free(d) && NoPercent(d)
    && GoodSegments(segments) && PathOf(segments) == d && !Reserved(d)
  }

  lemma RawExactly(raw: Bytes)
    ensures AliasPath.RawOk(raw) <==> exists runes :: RawFine(raw, runes)
  {
    FreeExactly(raw);
    if AliasPath.RawOk(raw) {
      var runes := Utf8.RunesOf(raw);
      Utf8.EndsInSpaceExactly(raw, runes);
      assert RawFine(raw, runes);
    }
    if runes :| RawFine(raw, runes) {
      Utf8.EncodedIsValid(runes);
      Utf8.EndsInSpaceExactly(raw, runes);
    }
  }

  lemma PathExactly(c: Bytes, d: Bytes)
    requires d != [] && d[0] == AliasPath.SLASH && AliasPath.Unescape(c) == Some(d)
    ensures AliasPath.DecodedOk(d) && !AliasPath.IsReservedAliasPath(c) <==> exists runes, segments :: PathFine(d, runes, segments)
  {
    FreeExactly(d);
    ReservedExactly(c, d);
    ReadsExactly(d, "/");
    if AliasPath.DecodedOk(d) && !AliasPath.IsReservedAliasPath(c) {
      var runes := Utf8.RunesOf(d);
      var segments := CleanPathIsGood(d);
      assert PathFine(d, runes, segments);
    }
    if runes, segments :| PathFine(d, runes, segments) {
      Utf8.EncodedIsValid(runes);
      GoodPathIsClean(segments);
      GoodPathSplits(segments);
      FirstSegment(segments);
      forall seg | seg in AliasPath.Split(d) ensures !AliasPath.IsDots(seg) {
        if seg != [] {
          var i :| 0 <= i < |segments| && segments[i] == seg;
          assert GoodSegment(segments[i]);
        }
      }
    }
  }

  /** The raw spelling stands for a path, and the answer is that path's canonical spelling. */
  ghost predicate Answers(raw: Bytes, c: Bytes, d: Bytes) {
    && (exists runes :: RawFine(raw, runes)) && (exists runes, segments :: PathFine(d, runes, segments))
    && Decodes(raw, d) && Decodes(c, d) && WellSpelled(c) && |c| <= 2048
    && (NoPercent(raw) || raw == c)
  }

  lemma EscapeAnswers(d: Bytes)
    ensures WellSpelled(AliasPath.Escape(d)) && Decodes(AliasPath.Escape(d), d)
  {
    EscapeIsWellSpelled(d);
    AliasPath.UnescapeEscape(d);
    UnescapeDecodes(AliasPath.Escape(d), d);
  }

  lemma AcceptedAnswers(raw: Bytes)
    requires AliasPath.NormalizeAliasPath(raw).Ok?
    ensures Answers(raw, AliasPath.NormalizeAliasPath(raw).value, AliasPath.Unescape(raw).value)
  {
    var d := AliasPath.Unescape(raw).value;
    var c := AliasPath.Escape(d);
    AliasPath.UnescapeKeepsSlash(raw);
    AliasPath.UnescapeEscape(d);
    RawExactly(raw);
    PathExactly(c, d);
    UnescapeDecodes(raw, d);
    EscapeAnswers(d);
    FreeExactly(raw);
  }

  lemma AnswersAccepted(raw: Bytes, c: Bytes, d: Bytes)
    requires Answers(raw, c, d)
    ensures AliasPath.NormalizeAliasPath(raw) == Ok(c)
  {
    UnescapeDecodes(raw, d);
    UnescapeDecodes(c, d);
    EscapeAnswers(d);
    SpellingIsUnique(c, AliasPath.Escape(d), d);
    RawExactly(raw);
    AliasPath.UnescapeKeepsSlash(raw);
    PathExactly(c, d);
    FreeExactly(raw);
  }

  /** NormalizeAliasPath accepts a path with this answer if and only if it meets these conditions. */
  lemma NormalizesExactly(raw: Bytes, c: Bytes)
    ensures AliasPath.NormalizeAliasPath(raw) == Ok(c) <==> exists d :: Answers(raw, c, d)
  {
    if AliasPath.NormalizeAliasPath(raw) == Ok(c) { AcceptedAnswers(raw); }
    if d :| Answers(raw, c, d) { AnswersAccepted(raw, c, d); }
  }

  /** A reserved route is told apart from a malformed path: all but the reservation is in order. */
  lemma ReservedOnlyIfWellFormed(raw: Bytes)
    requires AliasPath.NormalizeAliasPath(raw) == Err(AliasPath.ReservedAliasPath)
    ensures exists d, runes :: RawFine(raw, runes) && Decodes(raw, d) && Reserved(d) && Free(d) && NoPercent(d)
  {
    var d := AliasPath.Unescape(raw).value;
    AliasPath.UnescapeEscape(d);
    RawExactly(raw);
    UnescapeDecodes(raw, d);
    ReservedExactly(AliasPath.Escape(d), d);
    FreeExactly(d);
    var runes :| RawFine(raw, runes);
    assert RawFine(raw, runes) && Decodes(raw, d);
  }
}
