/**
 CBOR heads, section 3 of RFC 8949: a permissive reader that accepts every
 width, and a writer that emits the shortest (section 4.2.1).
 */
module Cbor {
  import opened Wrappers

  type byte = b: int | 0 <= b < 256
  type bytes = seq<byte>

  const TWO_TO_63: int := 0x8000_0000_0000_0000
  const TWO_TO_64: int := 0x1_0000_0000_0000_0000

  // Major types.
  const UNSIGNED: nat := 0
  const NEGATIVE: nat := 1
  const BYTE_STRING: nat := 2
  const TEXT_STRING: nat := 3
  const MAP: nat := 5

  // Big-endian arguments.

  function Pow256(width: nat): nat {
    if width == 0 then 1 else 256 * Pow256(width - 1)
  }

  lemma PowersOf256()
    ensures Pow256(1) == 256 && Pow256(2) == 0x1_0000 && Pow256(4) == 0x1_0000_0000 && Pow256(8) == TWO_TO_64
  {
    assert Pow256(3) == 0x100_0000 && Pow256(5) == 0x100_0000_0000 && Pow256(6) == 0x1_0000_0000_0000 && Pow256(7) == 0x100_0000_0000_0000;
  }

  function BigEndian(n: nat, width: nat): (b: bytes)
    ensures |b| == width
  {
    if width == 0 then [] else BigEndian(n / 256, width - 1) + [n % 256]
  }

  function FromBigEndian(b: bytes): nat {
    if b == [] then 0 else FromBigEndian(b[..|b| - 1]) * 256 + b[|b| - 1]
  }

  lemma {:induction false} FromToBigEndian(n: nat, width: nat)
    requires n < Pow256(width)
    ensures FromBigEndian(BigEndian(n, width)) == n
  {
    if width > 0 {
      FromToBigEndian(n / 256, width - 1);
      assert BigEndian(n, width)[..width - 1] == BigEndian(n / 256, width - 1);
    }
  }

  lemma {:induction false} ToFromBigEndian(b: bytes)
    ensures FromBigEndian(b) < Pow256(|b|)
    ensures BigEndian(FromBigEndian(b), |b|) == b
  {
    if b != [] {
      ToFromBigEndian(b[..|b| - 1]);
    }
  }

  // Heads.

  /** The byte width that additional information 24..27 announces. */
  function ArgumentWidth(info: nat): nat
    requires 24 <= info <= 27
  {
    if info == 24 then 1 else if info == 25 then 2 else if info == 26 then 4 else 8
  }

  datatype Head = Head(major: nat, info: nat, argument: nat, size: nat)

  /** Any width is accepted; reserved and indefinite forms and truncation are not. */
  function ReadHead(b: bytes): Option<Head> {
    if b == [] then
      None
    else
      var major, info := b[0] / 32, b[0] % 32;
      if info < 24 then
        Some(Head(major, info, info, 1))
      else if info <= 27 && 1 + ArgumentWidth(info) <= |b| then
        Some(Head(major, info, FromBigEndian(b[1..1 + ArgumentWidth(info)]), 1 + ArgumentWidth(info)))
      else
        None
  }

  function EncodeHead(major: nat, n: nat): (h: bytes)
    requires major < 8
    ensures 1 <= |h| <= 9
  {
    if n < 24 then [major * 32 + n]
    else if n < 0x100 then [major * 32 + 24] + BigEndian(n, 1)
    else if n < 0x1_0000 then [major * 32 + 25] + BigEndian(n, 2)
    else if n < 0x1_0000_0000 then [major * 32 + 26] + BigEndian(n, 4)
    else [major * 32 + 27] + BigEndian(n, 8)
  }

  /** A complete encoding of the head, in any of the permitted widths. */
  predicate HeadOf(h: bytes, major: nat, n: nat) {
    && h != []
    && h[0] / 32 == major
    && (if h[0] % 32 < 24 then |h| == 1 && n == h[0] % 32
        else h[0] % 32 <= 27 && |h| == 1 + ArgumentWidth(h[0] % 32) && n == FromBigEndian(h[1..]))
  }

  /** Deterministic encoding: no permitted encoding of the head is shorter. */
  ghost predicate Shortest(h: bytes, major: nat, n: nat) {
    HeadOf(h, major, n) && forall other: bytes | HeadOf(other, major, n) :: |h| <= |other|
  }

  lemma EncodedHead(major: nat, n: nat)
    requires major < 8 && n < TWO_TO_64
    ensures HeadOf(EncodeHead(major, n), major, n)
  {
    PowersOf256();
    var h := EncodeHead(major, n);
    if n >= 24 {
      var width := |h| - 1;
      assert h[1..] == BigEndian(n, width);
      FromToBigEndian(n, width);
    }
  }

  lemma HeadArgumentFits(h: bytes, major: nat, n: nat)
    requires HeadOf(h, major, n)
    ensures |h| == 1 ==> n < 24
    ensures |h| > 1 ==> |h| - 1 in {1, 2, 4, 8} && n < Pow256(|h| - 1) && h == [h[0]] + BigEndian(n, |h| - 1)
    ensures n < TWO_TO_64 && major < 8
  {
    PowersOf256();
    if |h| > 1 {
      ToFromBigEndian(h[1..]);
      assert h == [h[0]] + h[1..];
    }
  }

  lemma ShorterHeadsHoldLess(h: bytes, major: nat, n: nat)
    requires HeadOf(h, major, n)
    ensures major < 8 && n < TWO_TO_64 && |EncodeHead(major, n)| <= |h|
    ensures |h| == |EncodeHead(major, n)| ==> h == EncodeHead(major, n)
  {
    PowersOf256();
    HeadArgumentFits(h, major, n);
  }

  /** The writer's head is the one shortest encoding. */
  lemma ShortestIsEncoded(h: bytes, major: nat, n: nat)
    requires major < 8 && n < TWO_TO_64
    ensures Shortest(h, major, n) <==> h == EncodeHead(major, n)
  {
    EncodedHead(major, n);
    forall other: bytes | HeadOf(other, major, n)
      ensures |EncodeHead(major, n)| <= |other|
    {
      ShorterHeadsHoldLess(other, major, n);
    }
    if Shortest(h, major, n) {
      ShorterHeadsHoldLess(h, major, n);
    }
  }

  /** The reader recognises exactly the permitted encodings, and takes nothing after them. */
  lemma ReadHeadIsExact(h: bytes, rest: bytes, major: nat, n: nat)
    requires HeadOf(h, major, n)
    ensures ReadHead(h + rest) == Some(Head(major, h[0] % 32, n, |h|))
  {
    if |h| > 1 {
      assert (h + rest)[1..|h|] == h[1..];
    }
  }

  lemma ReadHeadIsSound(b: bytes)
    requires ReadHead(b).Some?
    ensures var head := ReadHead(b).value;
            && head.size <= |b|
            && HeadOf(b[..head.size], head.major, head.argument)
            && head.info == b[0] % 32
  {
    var head := ReadHead(b).value;
    if head.info >= 24 {
      assert b[..head.size][1..] == b[1..head.size];
    }
  }

  // Numeric order is the bytewise order of section 4.2.1.

  predicate BytewiseLess(a: bytes, b: bytes) {
    b != [] && (a == [] || a[0] < b[0] || (a[0] == b[0] && BytewiseLess(a[1..], b[1..])))
  }

  lemma {:induction false} BytewiseLessAtEnd(a: bytes, b: bytes, x: byte, y: byte)
    requires |a| == |b|
    ensures BytewiseLess(a + [x], b + [y]) <==> BytewiseLess(a, b) || (a == b && x < y)
  {
    if a == [] {
      assert a + [x] == [x] && b + [y] == [y];
    } else {
      assert (a + [x])[1..] == a[1..] + [x] && (b + [y])[1..] == b[1..] + [y];
      BytewiseLessAtEnd(a[1..], b[1..], x, y);
      assert a == [a[0]] + a[1..] && b == [b[0]] + b[1..];
    }
  }

  lemma {:induction false} BigEndianOrder(m: nat, n: nat, width: nat)
    requires m < Pow256(width) && n < Pow256(width)
    ensures BytewiseLess(BigEndian(m, width), BigEndian(n, width)) <==> m < n
  {
    if width > 0 {
      BigEndianOrder(m / 256, n / 256, width - 1);
      BytewiseLessAtEnd(BigEndian(m / 256, width - 1), BigEndian(n / 256, width - 1), m % 256, n % 256);
      if BigEndian(m / 256, width - 1) == BigEndian(n / 256, width - 1) {
        FromToBigEndian(m / 256, width - 1);
        FromToBigEndian(n / 256, width - 1);
      }
    }
  }

  /** Keys ascend numerically if and only if their encodings ascend bytewise. */
  lemma KeyOrderIsBytewise(m: nat, n: nat)
    requires m < TWO_TO_64 && n < TWO_TO_64
    ensures m < n <==> BytewiseLess(EncodeHead(UNSIGNED, m), EncodeHead(UNSIGNED, n))
  {
    PowersOf256();
    var a, b := EncodeHead(UNSIGNED, m), EncodeHead(UNSIGNED, n);
    if |a| == |b| > 1 {
      BigEndianOrder(m, n, |a| - 1);
      assert a[1..] == BigEndian(m, |a| - 1) && b[1..] == BigEndian(n, |a| - 1);
    } else if |a| == |b| == 1 {
      assert a[1..] == [] && b[1..] == [];
    }
  }
}
