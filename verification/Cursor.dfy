/** The text of a feed cursor: the sequence in decimal, in unpadded URL-safe base64
    (`apps/backend-rust/src/sync.rs`; section 5 of RFC 4648). */
module Cursor {
  import opened Wrappers
  import opened Cbor

  type sextet = i: int | 0 <= i < 64

  function ToChar(i: sextet): char {
    if i < 26 then (i as int + 65) as char
    else if i < 52 then (i as int + 71) as char
    else if i < 62 then (i as int - 4) as char
    else if i == 62 then '-'
    else '_'
  }

  function FromChar(c: char): Option<sextet> {
    if 'A' <= c <= 'Z' then Some(c as int - 65)
    else if 'a' <= c <= 'z' then Some(c as int - 71)
    else if '0' <= c <= '9' then Some(c as int + 4)
    else if c == '-' then Some(62)
    else if c == '_' then Some(63)
    else None
  }

  function Chars(s: seq<sextet>): string {
    if s == [] then "" else [ToChar(s[0])] + Chars(s[1..])
  }

  function FromChars(text: string): Option<seq<sextet>> {
    if text == "" then Some([])
    else
      var first, rest := FromChar(text[0]), FromChars(text[1..]);
      if first.None? || rest.None? then None else Some([first.value] + rest.value)
  }

  /** Three bytes make four sextets; a last group of one or two bytes is filled up with zero bits. */
  function Pack(b: bytes): seq<sextet>
    decreases |b|
  {
    if b == [] then []
    else if |b| == 1 then [b[0] / 4, b[0] % 4 * 16]
    else if |b| == 2 then [b[0] / 4, b[0] % 4 * 16 + b[1] / 16, b[1] % 16 * 4]
    else [b[0] / 4, b[0] % 4 * 16 + b[1] / 16, b[1] % 16 * 4 + b[2] / 64, b[2] % 64] + Pack(b[3..])
  }

  function First(s: seq<sextet>): byte
    requires |s| >= 2
  {
    s[0] as int * 4 + s[1] as int / 16
  }

  function Second(s: seq<sextet>): byte
    requires |s| >= 3
  {
    s[1] as int % 16 * 16 + s[2] as int / 4
  }

  function Third(s: seq<sextet>): byte
    requires |s| >= 4
  {
    s[2] as int % 4 * 64 + s[3] as int
  }

  /** The bits that fill up the last group must be zero. */
  function Unpack(s: seq<sextet>): Option<bytes>
    decreases |s|
  {
    if s == [] then Some([])
    else if |s| == 1 then None
    else if |s| == 2 then (if s[1] % 16 == 0 then Some([First(s)]) else None)
    else if |s| == 3 then (if s[2] % 4 == 0 then Some([First(s), Second(s)]) else None)
    else
      var rest := Unpack(s[4..]);
      if rest.None? then None else Some([First(s), Second(s), Third(s)] + rest.value)
  }

  function EncodeText(b: bytes): string { Chars(Pack(b)) }

  function DecodeText(text: string): Option<bytes> {
    if FromChars(text).None? then None else Unpack(FromChars(text).value)
  }

  function Digits(n: nat): bytes {
    if n < 10 then [48 + n] else Digits(n / 10) + [48 + n % 10]
  }

  function FromDigits(b: bytes): int {
    if b == [] then 0 else FromDigits(b[..|b| - 1]) * 10 + (b[|b| - 1] as int - 48)
  }

  predicate AllDigits(b: bytes) {
    forall j | 0 <= j < |b| :: 48 <= b[j] <= 57
  }

  function EncodeCursor(sequence: nat): string { EncodeText(Digits(sequence)) }

  /** Not base64, no digits, other characters, or more than an `i64` holds: None. */
  function DecodeCursor(cursor: string): Option<int> {
    var decoded := DecodeText(cursor);
    if cursor == "" || decoded.None? || decoded.value == [] || !AllDigits(decoded.value) then None
    else if FromDigits(decoded.value) >= TWO_TO_63 then None
    else Some(FromDigits(decoded.value))
  }

  lemma CharsInvert(i: sextet, c: char)
    ensures FromChar(ToChar(i)) == Some(i)
    ensures FromChar(c).Some? ==> ToChar(FromChar(c).value) == c
  {
  }

  lemma {:induction false} FromCharsInverts(s: seq<sextet>)
    ensures FromChars(Chars(s)) == Some(s)
  {
    if s != [] {
      CharsInvert(s[0], 'A');
      FromCharsInverts(s[1..]);
      assert Chars(s)[1..] == Chars(s[1..]);
      assert [s[0]] + s[1..] == s;
    }
  }

  lemma {:induction false} CharsInvertFromChars(text: string)
    requires FromChars(text).Some?
    ensures Chars(FromChars(text).value) == text
  {
    if text != "" {
      CharsInvert(0, text[0]);
      CharsInvertFromChars(text[1..]);
      assert FromChars(text).value[1..] == FromChars(text[1..]).value;
    }
  }

  lemma {:induction false} UnpackInvertsPack(b: bytes)
    ensures Unpack(Pack(b)) == Some(b)
    decreases |b|
  {
    if |b| >= 3 {
      var s := Pack(b);
      UnpackInvertsPack(b[3..]);
      assert s[4..] == Pack(b[3..]);
      assert First(s) == b[0] && Second(s) == b[1] && Third(s) == b[2];
      assert b == [b[0], b[1], b[2]] + b[3..];
    } else if |b| == 2 {
      var s := Pack(b);
      assert First(s) == b[0] && Second(s) == b[1];
      assert b == [b[0], b[1]];
    } else if |b| == 1 {
      assert First(Pack(b)) == b[0];
      assert b == [b[0]];
    }
  }

  lemma PackGroup(s: seq<sextet>)
    requires |s| == 4
    ensures First(s) / 4 == s[0] && First(s) % 4 * 16 + Second(s) / 16 == s[1]
    ensures Second(s) % 16 * 4 + Third(s) / 64 == s[2] && Third(s) % 64 == s[3]
  {
  }

  lemma {:induction false} PackInvertsUnpack(s: seq<sextet>)
    requires Unpack(s).Some?
    ensures Pack(Unpack(s).value) == s
    decreases |s|
  {
    if |s| >= 4 {
      var rest := Unpack(s[4..]).value;
      var b := [First(s), Second(s), Third(s)] + rest;
      PackInvertsUnpack(s[4..]);
      PackGroup(s[..4]);
      hide First, Second, Third;
      assert b[3..] == rest;
      assert Pack(b) == s[..4] + s[4..];
    } else {
      PackLastGroup(s);
    }
  }

  lemma PackLastGroup(s: seq<sextet>)
    requires |s| < 4 && Unpack(s).Some?
    ensures Pack(Unpack(s).value) == s
  {
    if |s| == 3 {
      var b := [First(s), Second(s)];
      assert b[0] / 4 == s[0] && b[0] % 4 * 16 + b[1] / 16 == s[1] && b[1] % 16 * 4 == s[2];
    } else if |s| == 2 {
      var b := [First(s)];
      assert b[0] / 4 == s[0] && b[0] % 4 * 16 == s[1];
    }
  }

  lemma DecodeInvertsEncodeText(b: bytes)
    ensures DecodeText(EncodeText(b)) == Some(b)
  {
    FromCharsInverts(Pack(b));
    UnpackInvertsPack(b);
  }

  /** Strict decoding accepts one text for each byte string. */
  lemma EncodeInvertsDecodeText(text: string)
    requires DecodeText(text).Some?
    ensures EncodeText(DecodeText(text).value) == text
  {
    PackInvertsUnpack(FromChars(text).value);
    CharsInvertFromChars(text);
  }

  lemma {:induction false} FromDigitsInverts(n: nat)
    ensures FromDigits(Digits(n)) == n && AllDigits(Digits(n)) && Digits(n) != []
    ensures NoLeadingZero(Digits(n)) && (n > 0 ==> Digits(n)[0] != 48)
  {
    if n >= 10 {
      FromDigitsInverts(n / 10);
      assert Digits(n)[..|Digits(n)| - 1] == Digits(n / 10);
    } else {
      assert Digits(n)[..0] == [];
    }
  }

  /** A cursor the server hands out is read back as the sequence it was made of. */
  lemma DecodeInvertsEncodeCursor(sequence: nat)
    requires sequence < TWO_TO_63
    ensures DecodeCursor(EncodeCursor(sequence)) == Some(sequence)
  {
    DecodeInvertsEncodeText(Digits(sequence));
    FromDigitsInverts(sequence);
  }

  /** Texts of cursors compare as their sequences do. */
  lemma CursorsAreInjective(a: nat, b: nat)
    requires a < TWO_TO_63 && b < TWO_TO_63
    ensures EncodeCursor(a) == EncodeCursor(b) <==> a == b
  {
    DecodeInvertsEncodeCursor(a);
    DecodeInvertsEncodeCursor(b);
  }

  predicate NoLeadingZero(b: bytes) { |b| == 1 || (b != [] && b[0] != 48) }

  lemma FromDigitsSnoc(front: bytes, last: int)
    requires 0 <= last <= 9
    ensures FromDigits(front + [48 + last]) == FromDigits(front) * 10 + last
  {
    assert (front + [48 + last])[..|front|] == front;
  }

  lemma DigitsSnoc(n: nat, last: int)
    requires n > 0 && 0 <= last <= 9
    ensures Digits(n * 10 + last) == Digits(n) + [48 + last]
  {
    assert (n * 10 + last) / 10 == n && (n * 10 + last) % 10 == last;
  }

  lemma {:induction false} DigitsInvert(b: bytes)
    requires AllDigits(b) && NoLeadingZero(b)
    ensures FromDigits(b) >= 0 && Digits(FromDigits(b)) == b && (|b| > 1 ==> FromDigits(b) > 0)
    decreases |b|
  {
    var front, last := b[..|b| - 1], b[|b| - 1] as int - 48;
    assert b == front + [48 + last];
    FromDigitsSnoc(front, last);
    if front == [] {
      assert FromDigits(front) == 0;
    } else {
      DigitsInvert(front);
      if |front| == 1 {
        assert FromDigits(front[..0]) == 0;
        assert FromDigits(front) == front[0] - 48 > 0;
      }
      DigitsSnoc(FromDigits(front), last);
    }
  }

  lemma {:induction false} DigitsAreNatural(b: bytes)
    requires AllDigits(b)
    ensures FromDigits(b) >= 0
    decreases |b|
  {
    if b != [] {
      DigitsAreNatural(b[..|b| - 1]);
    }
  }

  /** The server also reads cursors it never writes: exactly those whose decimal text has a leading zero. */
  lemma ForeignCursorsHaveLeadingZeros(cursor: string)
    requires DecodeCursor(cursor).Some?
    ensures 0 <= DecodeCursor(cursor).value < TWO_TO_63
    ensures EncodeCursor(DecodeCursor(cursor).value) == cursor <==> NoLeadingZero(DecodeText(cursor).value)
  {
    var text := DecodeText(cursor).value;
    DigitsAreNatural(text);
    EncodeInvertsDecodeText(cursor);
    if NoLeadingZero(text) {
      DigitsInvert(text);
    }
    var n := FromDigits(text);
    FromDigitsInverts(n);
    if EncodeCursor(n) == cursor {
      DecodeInvertsEncodeText(Digits(n));
      assert text == Digits(n);
    }
  }

  /** One of them: the text "00". */
  lemma ForeignCursorOfZero()
    ensures DecodeCursor("MDA") == Some(0) && EncodeCursor(0) == "MA"
  {
    var foreign: seq<sextet> := [12, 3, 0];
    assert Chars([0]) == "A" && Chars([12, 0]) == "MA" by { assert [0][1..] == [] && [12, 0][1..] == [0]; }
    assert Chars([3, 0]) == "DA" by { assert [3, 0][1..] == [0]; }
    assert Chars(foreign) == "MDA" by { assert foreign[1..] == [3, 0]; }
    FromCharsInverts(foreign);
    assert Unpack(foreign) == Some([48, 48]);
    assert FromDigits([48]) == 0 by { assert [48][..0] == []; }
    assert FromDigits([48, 48]) == 0 by { assert [48, 48][..1] == [48]; }
    assert Pack([48]) == [12, 0];
  }
}
