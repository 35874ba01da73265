/** UTF-8 by code points: the byte-wise validity test accepts exactly the encodings of scalar values (RFC 3629). */
module Utf8 {
  import opened Base
  import AliasPath

  type Rune = nat

  /** Unicode scalar values: no surrogates, nothing above U+10FFFF. */
  predicate Scalar(r: Rune) { r < 0xd800 || 0xe000 <= r <= 0x10ffff }

  function EncodeRune(r: Rune): (s: Bytes)
    requires Scalar(r)
    ensures s != []
  {
    if r < 0x80 then [r as Byte]
    else if r < 0x800 then [(0xc0 + r / 64) as Byte, (0x80 + r % 64) as Byte]
    else if r < 0x1_0000 then [(0xe0 + r / 4096) as Byte, (0x80 + r / 64 % 64) as Byte, (0x80 + r % 64) as Byte]
    else [(0xf0 + r / 262144) as Byte, (0x80 + r / 4096 % 64) as Byte, (0x80 + r / 64 % 64) as Byte, (0x80 + r % 64) as Byte]
  }

  predicate Scalars(runes: seq<Rune>) { forall i :: 0 <= i < |runes| ==> Scalar(runes[i]) }

  function Encode(runes: seq<Rune>): Bytes
    requires Scalars(runes)
  {
    if runes == [] then [] else EncodeRune(runes[0]) + Encode(runes[1..])
  }

  /** One encoded rune in front of anything is one step of the validity test. */
  lemma RuneIsValid(r: Rune, rest: Bytes)
    requires Scalar(r)
    ensures AliasPath.ValidUtf8(EncodeRune(r) + rest) <==> AliasPath.ValidUtf8(rest)
  {
    var e := EncodeRune(r);
    var s := e + rest;
    assert s[|e|..] == rest;
    assert s[0] == e[0];
    if r >= 0x80 { assert s[1] == e[1]; }
    if r >= 0x800 { assert s[2] == e[2]; }
    if r >= 0x1_0000 { assert s[3] == e[3]; }
  }

  lemma {:induction false} EncodedIsValid(runes: seq<Rune>)
    requires Scalars(runes)
    ensures AliasPath.ValidUtf8(Encode(runes))
  {
    if runes != [] {
      EncodedIsValid(runes[1..]);
      RuneIsValid(runes[0], Encode(runes[1..]));
    }
  }

  lemma TwoBytes(a: Byte, b: Byte) returns (r: Rune)
    requires 0xc2 <= a <= 0xdf && 0x80 <= b <= 0xbf
    ensures Scalar(r) && EncodeRune(r) == [a, b]
  {
    r := (a as int - 0xc0) * 64 + (b as int - 0x80);
  }

  lemma ThreeBytes(a: Byte, b: Byte, c: Byte) returns (r: Rune)
    requires 0xe0 <= a <= 0xef && 0x80 <= b <= 0xbf && 0x80 <= c <= 0xbf
    requires (a == 0xe0 ==> 0xa0 <= b) && (a == 0xed ==> b <= 0x9f)
    ensures Scalar(r) && EncodeRune(r) == [a, b, c]
  {
    r := (a as int - 0xe0) * 4096 + (b as int - 0x80) * 64 + (c as int - 0x80);
    Digits(0, a as int - 0xe0, b as int - 0x80, c as int - 0x80);
    assert r / 4096 == a as int - 0xe0;
  }

  lemma FourBytes(a: Byte, b: Byte, c: Byte, d: Byte) returns (r: Rune)
    requires 0xf0 <= a <= 0xf4 && 0x80 <= b <= 0xbf && 0x80 <= c <= 0xbf && 0x80 <= d <= 0xbf
    requires (a == 0xf0 ==> 0x90 <= b) && (a == 0xf4 ==> b <= 0x8f)
    ensures Scalar(r) && EncodeRune(r) == [a, b, c, d]
  {
    r := (a as int - 0xf0) * 262144 + (b as int - 0x80) * 4096 + (c as int - 0x80) * 64 + (d as int - 0x80);
    Digits(a as int - 0xf0, b as int - 0x80, c as int - 0x80, d as int - 0x80);
  }

  /** A number by its digits to the base 64, but for the first. */
  lemma Digits(x: nat, y: nat, z: nat, w: nat)
    requires y < 64 && z < 64 && w < 64
    ensures var r := x * 262144 + y * 4096 + z * 64 + w;
      r / 262144 == x && r / 4096 % 64 == y && r / 64 % 64 == z && r % 64 == w
  {
    var r := x * 262144 + y * 4096 + z * 64 + w;
    assert r / 64 == x * 4096 + y * 64 + z;
    assert r / 4096 == x * 64 + y;
  }

  /** The first rune of a valid string. */
  lemma FirstRune(s: Bytes) returns (r: Rune, rest: Bytes)
    requires s != [] && AliasPath.ValidUtf8(s)
    ensures Scalar(r) && s == EncodeRune(r) + rest && AliasPath.ValidUtf8(rest) && |rest| < |s|
  {
    if s[0] < 0x80 {
      r, rest := s[0] as int, s[1..];
      assert s == [s[0]] + s[1..];
    } else if s[0] <= 0xdf {
      r := TwoBytes(s[0], s[1]);
      rest := s[2..];
      assert s == [s[0], s[1]] + s[2..];
    } else if s[0] <= 0xef {
      r := ThreeBytes(s[0], s[1], s[2]);
      rest := s[3..];
      assert s == [s[0], s[1], s[2]] + s[3..];
    } else {
      r := FourBytes(s[0], s[1], s[2], s[3]);
      rest := s[4..];
      assert s == [s[0], s[1], s[2], s[3]] + s[4..];
    }
  }

  /** Every valid string encodes some scalar values. */
  lemma {:induction false} RunesOf(s: Bytes) returns (runes: seq<Rune>)
    requires AliasPath.ValidUtf8(s)
    ensures Scalars(runes) && Encode(runes) == s
    decreases |s|
  {
    if s == [] {
      runes := [];
    } else {
      var r, rest := FirstRune(s);
      var more := RunesOf(rest);
      runes := [r] + more;
      assert runes[1..] == more;
    }
  }

  predicate Encodes(s: Bytes, runes: seq<Rune>) { Scalars(runes) && Encode(runes) == s }

  lemma ValidExactly(s: Bytes)
    ensures AliasPath.ValidUtf8(s) <==> exists runes :: Encodes(s, runes)
  {
    if AliasPath.ValidUtf8(s) {
      var runes := RunesOf(s);
      assert Encodes(s, runes);
    }
    if runes :| Encodes(s, runes) { EncodedIsValid(runes); }
  }

  // ---------------------------------------------------------------- pieces

  /** A slash is never part of a longer encoding, so a string is valid when its pieces are. */
  lemma {:induction false} SlashSeparates(a: Bytes, b: Bytes)
    ensures AliasPath.ValidUtf8(a + [AliasPath.SLASH] + b) <==> AliasPath.ValidUtf8(a) && AliasPath.ValidUtf8(b)
    decreases |a|
  {
    var s := a + [AliasPath.SLASH] + b;
    if a == [] {
      assert s[1..] == b;
    } else {
      var n := if a[0] < 0x80 then 1 else if a[0] <= 0xdf then 2 else if a[0] <= 0xef then 3 else 4;
      assert s[0] == a[0];
      if |a| < n {
        assert s[|a|] == AliasPath.SLASH;
      } else {
        assert s[n..] == a[n..] + [AliasPath.SLASH] + b;
        SlashSeparates(a[n..], b);
      }
    }
  }

  lemma {:induction false} ValidByPieces(segments: seq<Bytes>)
    requires segments != []
    ensures AliasPath.ValidUtf8(AliasPath.Join(segments)) <==>
      forall i :: 0 <= i < |segments| ==> AliasPath.ValidUtf8(segments[i])
  {
    if |segments| > 1 {
      var rest := segments[1..];
      SlashSeparates(segments[0], AliasPath.Join(rest));
      ValidByPieces(rest);
      forall i | 0 <= i < |segments| ensures segments[i] == if i == 0 then segments[0] else rest[i - 1] {}
    }
  }

  // ---------------------------------------------------------------- white space

  /** unicode.IsSpace. */
  predicate White(r: Rune) {
    || 9 <= r <= 13 || r == 32 || r == 0x85 || r == 0xa0 || r == 0x1680 || 0x2000 <= r <= 0x200a
    || r == 0x2028 || r == 0x2029 || r == 0x202f || r == 0x205f || r == 0x3000
  }

  lemma {:induction false} EncodeAppend(runes: seq<Rune>, r: Rune)
    requires Scalars(runes) && Scalar(r)
    ensures Scalars(runes + [r]) && Encode(runes + [r]) == Encode(runes) + EncodeRune(r)
  {
    if runes == [] {
      assert [r][1..] == [] && runes + [r] == [r];
      assert Encode([]) + EncodeRune(r) == EncodeRune(r);
    } else {
      EncodeAppend(runes[1..], r);
      assert (runes + [r])[1..] == runes[1..] + [r];
      assert Encode(runes + [r]) == EncodeRune(runes[0]) + (Encode(runes[1..]) + EncodeRune(r));
    }
  }

  /** The bytes of a suffix tell its last rune. */
  lemma SuffixBytes(before: Bytes, r: Rune, t: Bytes)
    requires Scalar(r) && |t| == |EncodeRune(r)|
    ensures AliasPath.HasSuffix(before + EncodeRune(r), t) <==> EncodeRune(r) == t
  {
    var s := before + EncodeRune(r);
    assert s[|s| - |t|..] == EncodeRune(r);
  }

  /** A rune of another length ends in other bytes. */
  lemma SuffixLonger(before: Bytes, r: Rune, t: Bytes)
    requires Scalar(r) && 1 < |t| != |EncodeRune(r)| && t[0] >= 0xc0 && forall i :: 1 <= i < |t| ==> 0x80 <= t[i] < 0xc0
    ensures !AliasPath.HasSuffix(before + EncodeRune(r), t)
  {
    var e := EncodeRune(r);
    var s := before + e;
    RuneShape(r);
    var i := if |t| > |e| then |t| - |e| else 0;
    if |t| <= |s| {
      assert s[|s| - |t|..][i] == s[|s| - |t| + i] == e[if |t| > |e| then 0 else |e| - |t|];
      assert s[|s| - |t|..][i] != t[i];
    }
  }

  /** One leading byte, then continuation bytes. */
  lemma RuneShape(r: Rune)
    requires Scalar(r)
    ensures var e := EncodeRune(r); !(0x80 <= e[0] < 0xc0) && forall i :: 1 <= i < |e| ==> 0x80 <= e[i] < 0xc0
  {
  }

  lemma SuffixExactly(before: Bytes, r: Rune, t: Bytes)
    requires Scalar(r) && 1 < |t| && t[0] >= 0xc0 && forall i :: 1 <= i < |t| ==> 0x80 <= t[i] < 0xc0
    ensures AliasPath.HasSuffix(before + EncodeRune(r), t) <==> EncodeRune(r) == t
  {
    if |t| == |EncodeRune(r)| { SuffixBytes(before, r, t); } else { SuffixLonger(before, r, t); }
  }

  /** The table of endings is the list of white space. */
  lemma WhiteEndings(r: Rune, before: Bytes)
    requires Scalar(r)
    ensures AliasPath.EndsInSpace(before + EncodeRune(r)) <==> White(r)
  {
    var s, e := before + EncodeRune(r), EncodeRune(r);
    assert s[|s| - 1] == e[|e| - 1];
    SuffixExactly(before, r, [0xc2, 0x85]);
    SuffixExactly(before, r, [0xc2, 0xa0]);
    SuffixExactly(before, r, [0xe1, 0x9a, 0x80]);
    SuffixExactly(before, r, [0xe2, 0x80, 0xa8]);
    SuffixExactly(before, r, [0xe2, 0x80, 0xa9]);
    SuffixExactly(before, r, [0xe2, 0x80, 0xaf]);
    SuffixExactly(before, r, [0xe2, 0x81, 0x9f]);
    SuffixExactly(before, r, [0xe3, 0x80, 0x80]);
    var last := s[|s| - 1];
    if 0x80 <= last <= 0x8a { SuffixExactly(before, r, [0xe2, 0x80, last]); }
    WhiteBytes(r);
  }

  lemma WhiteBytes(r: Rune)
    requires Scalar(r)
    ensures White(r) <==>
      var e := EncodeRune(r);
      || (|e| == 1 && (9 <= e[0] <= 13 || e[0] == 32))
      || e == [0xc2, 0x85] || e == [0xc2, 0xa0] || e == [0xe1, 0x9a, 0x80]
      || (|e| == 3 && 0x80 <= e[2] <= 0x8a && e == [0xe2, 0x80, e[2]])
      || e == [0xe2, 0x80, 0xa8] || e == [0xe2, 0x80, 0xa9] || e == [0xe2, 0x80, 0xaf]
      || e == [0xe2, 0x81, 0x9f] || e == [0xe3, 0x80, 0x80]
  {
  }

  /** A string ends in white space exactly when its last rune is white space. */
  lemma EndsInSpaceExactly(s: Bytes, runes: seq<Rune>)
    requires Encodes(s, runes)
    ensures AliasPath.EndsInSpace(s) <==> runes != [] && White(runes[|runes| - 1])
  {
    if runes != [] {
      var n := |runes| - 1;
      EncodeAppend(runes[..n], runes[n]);
      assert runes == runes[..n] + [runes[n]];
      WhiteEndings(runes[n], Encode(runes[..n]));
    }
  }
}
