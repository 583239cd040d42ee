/** Which byte strings are taken for text: exactly the UTF-8 encodings of Unicode scalar values. */
module Utf8Text {
  import opened Bits
  import opened Profile

  /** A code point that is no surrogate. */
  predicate IsScalar(c: nat) {
    c < 0xd800 || 0xe000 <= c < 0x11_0000
  }

  /** UTF-8 by section 3 of RFC 3629. */
  function EncodeScalar(c: nat): seq<Byte>
    requires IsScalar(c)
  {
    if c < 0x80 then [c]
    else if c < 0x800 then [0xc0 + c / 0x40, 0x80 + c % 0x40]
    else if c < 0x1_0000 then [0xe0 + c / 0x1000, 0x80 + c / 0x40 % 0x40, 0x80 + c % 0x40]
    else [0xf0 + c / 0x4_0000, 0x80 + c / 0x1000 % 0x40, 0x80 + c / 0x40 % 0x40, 0x80 + c % 0x40]
  }

  function EncodeScalars(cs: seq<nat>): seq<Byte>
    requires forall k :: 0 <= k < |cs| ==> IsScalar(cs[k])
  {
    if cs == [] then [] else EncodeScalar(cs[0]) + EncodeScalars(cs[1..])
  }

  ghost predicate IsTextOf(s: seq<Byte>, cs: seq<nat>) {
    (forall k :: 0 <= k < |cs| ==> IsScalar(cs[k])) && s == EncodeScalars(cs)
  }

  lemma ScalarLength(c: nat, rest: seq<Byte>)
    requires IsScalar(c)
    ensures Utf8Length(EncodeScalar(c) + rest) == |EncodeScalar(c)| > 0
  {
    var s := EncodeScalar(c) + rest;
    assert s[0] == EncodeScalar(c)[0];
    assert |EncodeScalar(c)| > 1 ==> s[1] == EncodeScalar(c)[1];
    assert |EncodeScalar(c)| > 2 ==> s[2] == EncodeScalar(c)[2];
    assert |EncodeScalar(c)| > 3 ==> s[3] == EncodeScalar(c)[3];
  }

  lemma ScalarOfTwo(a: Byte, b: Byte) returns (c: nat)
    requires 0xc2 <= a < 0xe0 && 0x80 <= b <= 0xbf
    ensures IsScalar(c) && EncodeScalar(c) == [a, b]
  {
    c := (a - 0xc0) * 0x40 + (b - 0x80);
  }

  lemma ScalarOfThree(a: Byte, b: Byte, d: Byte) returns (c: nat)
    requires 0xe0 <= a < 0xf0 && 0x80 <= b <= 0xbf && 0x80 <= d <= 0xbf && (a == 0xe0 ==> b >= 0xa0) && (a == 0xed ==> b <= 0x9f)
    ensures IsScalar(c) && EncodeScalar(c) == [a, b, d]
  {
    c := (a - 0xe0) * 0x1000 + (b - 0x80) * 0x40 + (d - 0x80);
    assert c / 0x40 == (a - 0xe0) * 0x40 + (b - 0x80);
  }

  lemma ScalarOfFour(a: Byte, b: Byte, d: Byte, e: Byte) returns (c: nat)
    requires 0xf0 <= a < 0xf5 && 0x80 <= b <= 0xbf && 0x80 <= d <= 0xbf && 0x80 <= e <= 0xbf
    requires (a == 0xf0 ==> b >= 0x90) && (a == 0xf4 ==> b <= 0x8f)
    ensures IsScalar(c) && EncodeScalar(c) == [a, b, d, e]
  {
    c := (a - 0xf0) * 0x4_0000 + (b - 0x80) * 0x1000 + (d - 0x80) * 0x40 + (e - 0x80);
    assert c / 0x40 == (a - 0xf0) * 0x1000 + (b - 0x80) * 0x40 + (d - 0x80);
    assert c / 0x1000 == (a - 0xf0) * 0x40 + (b - 0x80);
  }

  /** What one step takes off is the encoding of a scalar value. */
  lemma ScalarOf(s: seq<Byte>) returns (c: nat)
    requires s != [] && Utf8Length(s) > 0
    ensures IsScalar(c) && s[..Utf8Length(s)] == EncodeScalar(c)
  {
    hide EncodeScalar, IsScalar;
    var n := Utf8Length(s);
    if n == 1 {
      c := s[0];
      OneByte(c);
      assert s[..1] == [s[0]];
    } else if n == 2 {
      c := ScalarOfTwo(s[0], s[1]);
      assert s[..2] == [s[0], s[1]];
    } else if n == 3 {
      c := ScalarOfThree(s[0], s[1], s[2]);
      assert s[..3] == [s[0], s[1], s[2]];
    } else {
      c := ScalarOfFour(s[0], s[1], s[2], s[3]);
      assert s[..4] == [s[0], s[1], s[2], s[3]];
    }
  }

  lemma OneByte(c: nat)
    requires c < 0x80
    ensures IsScalar(c) && EncodeScalar(c) == [c]
  {
  }

  lemma {:induction false} TextIsUtf8(cs: seq<nat>)
    requires forall k :: 0 <= k < |cs| ==> IsScalar(cs[k])
    ensures Utf8(EncodeScalars(cs))
    decreases |cs|
  {
    hide EncodeScalar, Utf8Length;
    if cs != [] {
      var first, rest := EncodeScalar(cs[0]), EncodeScalars(cs[1..]);
      ScalarLength(cs[0], rest);
      TextIsUtf8(cs[1..]);
      assert (first + rest)[|first|..] == rest;
    }
  }

  lemma {:induction false} Utf8IsText(s: seq<Byte>) returns (cs: seq<nat>)
    requires Utf8(s)
    ensures IsTextOf(s, cs)
    decreases |s|
  {
    hide EncodeScalar, Utf8Length, IsScalar;
    if s == [] {
      cs := [];
    } else {
      var n := Utf8Length(s);
      var c := ScalarOf(s);
      var rest := Utf8IsText(s[n..]);
      cs := [c] + rest;
      assert cs[1..] == rest && s == s[..n] + s[n..];
    }
  }

  /** A name is accepted exactly if it is the encoding of some text. */
  lemma {:induction false} Utf8Iff(s: seq<Byte>)
    ensures Utf8(s) <==> exists cs :: IsTextOf(s, cs)
  {
    hide EncodeScalar, Utf8Length;
    if Utf8(s) {
      var cs := Utf8IsText(s);
    }
    if cs :| IsTextOf(s, cs) {
      TextIsUtf8(cs);
    }
  }
}
