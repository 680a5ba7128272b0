/** Well-formed UTF-8 is exactly the encoding of Unicode scalar values. */
module Utf8Scalars {
  import opened Cbor
  import opened Utf8

  /** Code points but for the surrogates. */
  type scalar = c: int | 0 <= c <= 0xD7FF || 0xE000 <= c <= 0x10FFFF

  /** The UTF-8 encoding form, section 3.9 of the Unicode Standard. */
  function EncodeScalar(c: scalar): (b: bytes)
    ensures 1 <= |b| <= 4
  {
    if c < 0x80 then [c]
    else if c < 0x800 then [0xC0 + c / 64, 0x80 + c % 64]
    else if c < 0x1_0000 then [0xE0 + c / 4096, 0x80 + c / 64 % 64, 0x80 + c % 64]
    else assert c / 0x4_0000 <= 4; [0xF0 + c / 0x4_0000, 0x80 + c / 4096 % 64, 0x80 + c / 64 % 64, 0x80 + c % 64]
  }

  function EncodeScalars(text: seq<scalar>): bytes {
    if text == [] then [] else EncodeScalar(text[0]) + EncodeScalars(text[1..])
  }

  /** The second byte of a three-byte form shows whether the form is overlong or a surrogate. */
  lemma SplitThree(c: scalar)
    requires 0x800 <= c < 0x1_0000
    ensures c / 4096 == 0 ==> c / 64 % 64 >= 0x20
    ensures c / 4096 == 0xD ==> c / 64 % 64 < 0x20
  {
    var x, y, z := c / 4096, c / 64 % 64, c % 64;
    assert c / 64 / 64 == x;
    assert c == x * 4096 + y * 64 + z;
  }

  lemma SplitFour(c: scalar)
    requires 0x1_0000 <= c
    ensures c / 0x4_0000 == 0 ==> c / 4096 % 64 >= 0x10
    ensures c / 0x4_0000 == 4 ==> c / 4096 % 64 < 0x10
  {
    var w, x, rest := c / 0x4_0000, c / 4096 % 64, c % 4096;
    assert c / 4096 / 64 == w;
    assert c == w * 0x4_0000 + x * 4096 + rest;
  }

  lemma FrontOfScalar(c: scalar, rest: bytes)
    ensures FrontLength(EncodeScalar(c) + rest) == |EncodeScalar(c)|
  {
    var b := EncodeScalar(c) + rest;
    if c < 0x800 {
    } else if c < 0x1_0000 {
      SplitThree(c);
      assert b[0] == 0xE0 + c / 4096 && b[1] == 0x80 + c / 64 % 64 && b[2] == 0x80 + c % 64;
    } else {
      SplitFour(c);
      assert b[0] == 0xF0 + c / 0x4_0000 && b[1] == 0x80 + c / 4096 % 64 && b[2] == 0x80 + c / 64 % 64 && b[3] == 0x80 + c % 64;
    }
  }

  lemma TwoByteScalar(x: nat, y: nat)
    requires 2 <= x < 32 && y < 64
    ensures var c := x * 64 + y; 0x80 <= c < 0x800 && c / 64 == x && c % 64 == y
  {
  }

  lemma ThreeByteScalar(x: nat, y: nat, z: nat)
    requires x < 16 && y < 64 && z < 64 && (x == 0 ==> y >= 32) && (x == 13 ==> y < 32)
    ensures var c := x * 4096 + y * 64 + z;
            0x800 <= c < 0x1_0000 && (c <= 0xD7FF || 0xE000 <= c) && c / 4096 == x && c / 64 % 64 == y && c % 64 == z
  {
    var c := x * 4096 + y * 64 + z;
    assert c / 64 == x * 64 + y;
    assert (x * 64 + y) % 64 == y;
  }

  lemma FourByteScalar(w: nat, x: nat, y: nat, z: nat)
    requires w <= 4 && x < 64 && y < 64 && z < 64 && (w == 0 ==> x >= 16) && (w == 4 ==> x < 16)
    ensures var c := w * 0x4_0000 + x * 4096 + y * 64 + z;
            0x1_0000 <= c <= 0x10FFFF && c / 0x4_0000 == w && c / 4096 % 64 == x && c / 64 % 64 == y && c % 64 == z
  {
    var c := w * 0x4_0000 + x * 4096 + y * 64 + z;
    assert c / 64 == w * 4096 + x * 64 + y && c / 4096 == w * 64 + x;
    assert (w * 4096 + x * 64 + y) % 64 == y && (w * 64 + x) % 64 == x;
  }

  lemma ScalarOfFront(b: bytes) returns (c: scalar)
    requires FrontLength(b) > 0
    ensures EncodeScalar(c) == b[..FrontLength(b)]
  {
    var w: nat := b[0];
    if FrontLength(b) == 1 {
      c := w;
    } else {
      var x: nat := b[1] as int - 0x80;
      if FrontLength(b) == 2 {
        TwoByteScalar(w - 0xC0, x);
        c := (w - 0xC0) * 64 + x;
      } else {
        var y: nat := b[2] as int - 0x80;
        if FrontLength(b) == 3 {
          ThreeByteScalar(w - 0xE0, x, y);
          c := (w - 0xE0) * 4096 + x * 64 + y;
        } else {
          var z: nat := b[3] as int - 0x80;
          FourByteScalar(w - 0xF0, x, y, z);
          c := (w - 0xF0) * 0x4_0000 + x * 4096 + y * 64 + z;
        }
      }
    }
  }

  /** Every encoded text is well formed. */
  lemma {:induction false} EncodedIsUtf8(text: seq<scalar>)
    ensures IsUtf8(EncodeScalars(text))
    decreases |text|
  {
    hide EncodeScalar, FrontLength;
    if text != [] {
      var front, rest := EncodeScalar(text[0]), EncodeScalars(text[1..]);
      FrontOfScalar(text[0], rest);
      EncodedIsUtf8(text[1..]);
      assert (front + rest)[|front|..] == rest;
    }
  }

  /** And every well-formed text is the encoding of its scalar values. */
  lemma {:induction false} Utf8IsEncoded(b: bytes) returns (text: seq<scalar>)
    requires IsUtf8(b)
    ensures EncodeScalars(text) == b
    decreases |b|
  {
    hide EncodeScalar, FrontLength;
    if b == [] {
      text := [];
    } else {
      var n := FrontLength(b);
      var first := ScalarOfFront(b);
      var others := Utf8IsEncoded(b[n..]);
      text := [first] + others;
      assert text[1..] == others && b[..n] + b[n..] == b;
    }
  }
}
