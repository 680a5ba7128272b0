/** Well-formed UTF-8, Table 3-7 of the Unicode Standard: what `str` decoding accepts. */
module Utf8 {
  import opened Cbor

  predicate Continues(b: byte) { 0x80 <= b <= 0xBF }

  /** The length of the well-formed sequence at the front, or 0. */
  function FrontLength(b: bytes): nat
    ensures FrontLength(b) <= |b|
  {
    if b == [] then 0
    else if b[0] <= 0x7F then 1
    else if 0xC2 <= b[0] <= 0xDF then
      if |b| >= 2 && Continues(b[1]) then 2 else 0
    else if 0xE0 <= b[0] <= 0xEF then
      if && |b| >= 3 && Continues(b[1]) && Continues(b[2])
         && (b[0] == 0xE0 ==> 0xA0 <= b[1]) && (b[0] == 0xED ==> b[1] <= 0x9F) then 3 else 0
    else if 0xF0 <= b[0] <= 0xF4 then
      if && |b| >= 4 && Continues(b[1]) && Continues(b[2]) && Continues(b[3])
         && (b[0] == 0xF0 ==> 0x90 <= b[1]) && (b[0] == 0xF4 ==> b[1] <= 0x8F) then 4 else 0
    else 0
  }

  predicate IsUtf8(b: bytes) {
    b == [] || (FrontLength(b) > 0 && IsUtf8(b[FrontLength(b)..]))
  }

  function Ascii(s: string): (b: bytes)
    requires forall j | 0 <= j < |s| :: s[j] as int < 128
    ensures |b| == |s|
    ensures forall j | 0 <= j < |s| :: b[j] == s[j] as int
  {
    seq(|s|, j requires 0 <= j < |s| => s[j] as int)
  }

  lemma AsciiIsUtf8(b: bytes)
    requires forall j | 0 <= j < |b| :: b[j] <= 0x7F
    ensures IsUtf8(b)
  {
  }
}
