/** The strict map codec of `crates/crypto-core/src/canon.rs`. */
module StrictCbor {
  import opened Wrappers
  import opened Cbor
  import opened Utf8
  import opened CryptoErrors

  const MAX_MAP_ENTRIES: nat := 16

  datatype Field = Text(text: bytes) | Bytes(data: bytes) | Int(number: int) | Null

  datatype Entry = Entry(key: nat, value: Field)

  /** The values a Rust `Field` can hold. */
  predicate IsField(f: Field) {
    match f
    case Text(t) => IsUtf8(t) && |t| < TWO_TO_63
    case Bytes(d) => |d| < TWO_TO_63
    case Int(i) => -TWO_TO_63 <= i < TWO_TO_63
    case Null => true
  }

  predicate Ascending(entries: seq<Entry>) {
    forall j | 0 <= j < |entries| - 1 :: entries[j].key < entries[j + 1].key
  }

  predicate IsEntry(e: Entry) {
    e.key < TWO_TO_63 && IsField(e.value)
  }

  /** A contract map: at most 16 entries with ascending int64 keys. */
  predicate IsStrictMap(entries: seq<Entry>) {
    && |entries| <= MAX_MAP_ENTRIES
    && Ascending(entries)
    && forall j | 0 <= j < |entries| :: IsEntry(entries[j])
  }

  // Encoding.

  function EncodeField(f: Field): bytes {
    match f
    case Text(t) => EncodeHead(TEXT_STRING, |t|) + t
    case Bytes(d) => EncodeHead(BYTE_STRING, |d|) + d
    case Int(i) => if i >= 0 then EncodeHead(UNSIGNED, i) else EncodeHead(NEGATIVE, -1 - i)
    case Null => [0xF6]
  }

  function EncodeEntry(e: Entry): bytes {
    EncodeHead(UNSIGNED, e.key) + EncodeField(e.value)
  }

  function EncodeEntries(entries: seq<Entry>): bytes {
    if entries == [] then [] else EncodeEntry(entries[0]) + EncodeEntries(entries[1..])
  }

  function EncodeMap(entries: seq<Entry>): bytes {
    EncodeHead(MAP, |entries|) + EncodeEntries(entries)
  }

  // Decoding: each reader returns what it read and the bytes after it.

  /** The classes `Decoder::datatype` tells apart for the wrapper. */
  datatype DataType = IntType | BytesType | TextType | NullType | TagOrFloat | Indefinite | OtherType

  function DataTypeOf(b: byte): DataType {
    var major, info := b / 32, b % 32;
    if major <= 1 then (if info <= 27 then IntType else OtherType)
    else if major == 2 then (if info <= 27 then BytesType else if info == 31 then Indefinite else OtherType)
    else if major == 3 then (if info <= 27 then TextType else if info == 31 then Indefinite else OtherType)
    else if major == 6 then (if info <= 27 then TagOrFloat else OtherType)
    else if b == 0xF6 then NullType
    else if 0xF9 <= b <= 0xFB then TagOrFloat
    else OtherType
  }

  /** `Decoder::i64`. */
  function ReadInt(b: bytes): Result<(int, bytes), Error> {
    var head := ReadHead(b);
    if head.None? || head.value.major > 1 || head.value.argument >= TWO_TO_63 then
      Err(InvalidEncoding)
    else
      var value := if head.value.major == 0 then head.value.argument else -1 - head.value.argument;
      Ok((value, b[head.value.size..]))
  }

  /** `Decoder::bytes`, and `Decoder::str` before its UTF-8 check. */
  function ReadString(b: bytes): Result<(bytes, bytes), Error> {
    var head := ReadHead(b);
    if head.None? || head.value.size + head.value.argument > |b| then
      Err(InvalidEncoding)
    else
      var end := head.value.size + head.value.argument;
      Ok((b[head.value.size..end], b[end..]))
  }

  function ReadKey(b: bytes): Result<(nat, bytes), Error> {
    if b == [] then Err(InvalidEncoding)
    else match DataTypeOf(b[0])
      case IntType =>
        var read := ReadInt(b);
        if read.Err? then Err(read.error)
        else if read.value.0 < 0 then Err(UnknownField)
        else Ok((read.value.0, read.value.1))
      case TagOrFloat => Err(NonCanonicalCbor)
      case _ => Err(InvalidEncoding)
  }

  function ReadValue(b: bytes): Result<(Field, bytes), Error> {
    if b == [] then Err(InvalidEncoding)
    else match DataTypeOf(b[0])
      case TextType =>
        var read := ReadString(b);
        if read.Err? then Err(read.error)
        else if !IsUtf8(read.value.0) then Err(InvalidEncoding)
        else Ok((Text(read.value.0), read.value.1))
      case BytesType =>
        var read := ReadString(b);
        if read.Err? then Err(read.error) else Ok((Bytes(read.value.0), read.value.1))
      case NullType => Ok((Null, b[1..]))
      case IntType =>
        var read := ReadInt(b);
        if read.Err? then Err(read.error) else Ok((Int(read.value.0), read.value.1))
      case TagOrFloat => Err(NonCanonicalCbor)
      case Indefinite => Err(NonCanonicalCbor)
      case OtherType => Err(InvalidEncoding)
  }

  function ReadEntry(b: bytes): Result<(Entry, bytes), Error> {
    var key := ReadKey(b);
    if key.Err? then Err(key.error)
    else
      var value := ReadValue(key.value.1);
      if value.Err? then Err(value.error) else Ok((Entry(key.value.0, value.value.0), value.value.1))
  }

  function ReadEntries(b: bytes, count: nat): Result<(seq<Entry>, bytes), Error> {
    if count == 0 then Ok(([], b))
    else
      var first := ReadEntry(b);
      if first.Err? then Err(first.error)
      else
        var rest := ReadEntries(first.value.1, count - 1);
        if rest.Err? then Err(rest.error) else Ok(([first.value.0] + rest.value.0, rest.value.1))
  }

  /** The map head: the entry count and the bytes after it. */
  function ReadMapHead(b: bytes): Result<(nat, bytes), Error> {
    if b == [] || b[0] / 32 != MAP then Err(InvalidEncoding)
    else if b[0] % 32 == 31 then Err(NonCanonicalCbor)
    else
      var head := ReadHead(b);
      if head.None? then Err(InvalidEncoding)
      else if head.value.argument > MAX_MAP_ENTRIES then Err(UnknownField)
      else Ok((head.value.argument, b[head.value.size..]))
  }

  /** `StrictMap::decode`. */
  function Decode(b: bytes): Result<seq<Entry>, Error> {
    var head := ReadMapHead(b);
    if head.Err? then Err(head.error)
    else
      var read := ReadEntries(head.value.1, head.value.0);
      if read.Err? then Err(read.error)
      else if read.value.1 != [] then Err(InvalidEncoding)
      else if !Ascending(read.value.0) then Err(NonCanonicalCbor)
      else Ok(read.value.0)
  }

  /** `decode` followed by `assert_canonical_bytes`. */
  function DecodeCanonical(b: bytes): Result<seq<Entry>, Error> {
    var entries := Decode(b);
    if entries.Ok? && EncodeMap(entries.value) != b then Err(NonCanonicalCbor) else entries
  }

  // Reading back what was written.

  lemma ReadEncodedHead(major: nat, n: nat, rest: bytes)
    requires major < 8 && n < TWO_TO_64
    ensures var h := EncodeHead(major, n);
            && h[0] / 32 == major && h[0] % 32 <= 27
            && ReadHead(h + rest) == Some(Head(major, h[0] % 32, n, |h|))
            && (h + rest)[|h|..] == rest && (h + rest)[0] == h[0]
  {
    EncodedHead(major, n);
    ReadHeadIsExact(EncodeHead(major, n), rest, major, n);
  }

  lemma ReadEncodedInt(i: int, rest: bytes)
    requires IsField(Int(i))
    ensures ReadInt(EncodeField(Int(i)) + rest) == Ok((i, rest))
    ensures DataTypeOf((EncodeField(Int(i)) + rest)[0]) == IntType
  {
    ReadEncodedHead(if i >= 0 then UNSIGNED else NEGATIVE, if i >= 0 then i else -1 - i, rest);
  }

  lemma ReadEncodedString(major: nat, s: bytes, rest: bytes)
    requires (major == TEXT_STRING || major == BYTE_STRING) && |s| < TWO_TO_63
    ensures ReadString(EncodeHead(major, |s|) + s + rest) == Ok((s, rest))
    ensures DataTypeOf((EncodeHead(major, |s|) + s + rest)[0]) == if major == TEXT_STRING then TextType else BytesType
  {
    var h := EncodeHead(major, |s|);
    ReadEncodedHead(major, |s|, s + rest);
    assert h + s + rest == h + (s + rest);
    assert (h + s + rest)[|h|..|h| + |s|] == s;
    assert (h + s + rest)[|h| + |s|..] == rest;
  }

  lemma ReadEncodedValue(f: Field, rest: bytes)
    requires IsField(f)
    ensures ReadValue(EncodeField(f) + rest) == Ok((f, rest))
  {
    match f {
      case Text(t) => ReadEncodedString(TEXT_STRING, t, rest);
      case Bytes(d) => ReadEncodedString(BYTE_STRING, d, rest);
      case Int(i) => ReadEncodedInt(i, rest);
      case Null => assert ([0xF6] + rest)[1..] == rest;
    }
  }

  lemma ReadEncodedEntry(e: Entry, rest: bytes)
    requires IsEntry(e)
    ensures ReadEntry(EncodeEntry(e) + rest) == Ok((e, rest))
  {
    var k, v := EncodeHead(UNSIGNED, e.key), EncodeField(e.value);
    assert EncodeEntry(e) + rest == k + (v + rest);
    ReadEncodedInt(e.key, v + rest);
    ReadEncodedValue(e.value, rest);
  }

  lemma ReadEntriesCons(b: bytes, first: Entry, tail: bytes, others: seq<Entry>, rest: bytes, count: nat)
    requires ReadEntry(b) == Ok((first, tail)) && ReadEntries(tail, count) == Ok((others, rest))
    ensures ReadEntries(b, 1 + count) == Ok(([first] + others, rest))
  {
  }

  lemma ReadEntriesFails(b: bytes, count: nat, error: Error)
    requires count > 0
    requires || ReadEntry(b) == Err(error)
             || (ReadEntry(b).Ok? && ReadEntries(ReadEntry(b).value.1, count - 1) == Err(error))
    ensures ReadEntries(b, count) == Err(error)
  {
  }

  lemma EncodeEntriesCons(entries: seq<Entry>, rest: bytes)
    requires entries != []
    ensures EncodeEntries(entries) + rest == EncodeEntry(entries[0]) + (EncodeEntries(entries[1..]) + rest)
  {
  }

  lemma {:induction false} ReadEncodedEntries(entries: seq<Entry>, rest: bytes)
    requires forall j | 0 <= j < |entries| :: IsEntry(entries[j])
    ensures ReadEntries(EncodeEntries(entries) + rest, |entries|) == Ok((entries, rest))
  {
    if entries == [] {
      assert [] + rest == rest;
    } else {
      var first, others := entries[0], entries[1..];
      var tail := EncodeEntries(others) + rest;
      EncodeEntriesCons(entries, rest);
      ReadEncodedEntry(first, tail);
      ReadEncodedEntries(others, rest);
      assert [first] + others == entries;
      ReadEntriesCons(EncodeEntry(first) + tail, first, tail, others, rest, |others|);
    }
  }

  lemma ReadEncodedMap(entries: seq<Entry>, rest: bytes)
    requires IsStrictMap(entries)
    ensures ReadMapHead(EncodeMap(entries) + rest) == Ok((|entries|, EncodeEntries(entries) + rest))
    ensures ReadEntries(EncodeEntries(entries) + rest, |entries|) == Ok((entries, rest))
  {
    ReadEncodedHead(MAP, |entries|, EncodeEntries(entries) + rest);
    assert EncodeMap(entries) + rest == EncodeHead(MAP, |entries|) + (EncodeEntries(entries) + rest);
    ReadEncodedEntries(entries, rest);
  }

  /** Decoding inverts encoding. */
  lemma DecodeInvertsEncode(entries: seq<Entry>)
    requires IsStrictMap(entries)
    ensures DecodeCanonical(EncodeMap(entries)) == Ok(entries)
  {
    ReadEncodedMap(entries, []);
    assert EncodeMap(entries) + [] == EncodeMap(entries);
    assert EncodeEntries(entries) + [] == EncodeEntries(entries);
  }

  // What the decoder lets through.

  lemma ReadValueIsSound(b: bytes)
    requires ReadValue(b).Ok? && |b| < TWO_TO_63
    ensures IsField(ReadValue(b).value.0) && |ReadValue(b).value.1| <= |b|
  {
    if ReadHead(b).Some? {
      ReadHeadIsSound(b);
    }
  }

  lemma {:induction false} ReadEntriesIsSound(b: bytes, count: nat)
    requires ReadEntries(b, count).Ok? && |b| < TWO_TO_63
    ensures var entries := ReadEntries(b, count).value.0;
            |entries| == count && forall j | 0 <= j < count :: IsEntry(entries[j])
    decreases count
  {
    if count > 0 {
      ReadHeadIsSound(b);
      ReadValueIsSound(ReadKey(b).value.1);
      ReadEntriesIsSound(ReadEntry(b).value.1, count - 1);
    }
  }

  lemma DecodeIsSound(b: bytes)
    requires Decode(b).Ok? && |b| < TWO_TO_63
    ensures IsStrictMap(Decode(b).value)
  {
    ReadHeadIsSound(b);
    ReadEntriesIsSound(ReadMapHead(b).value.1, ReadMapHead(b).value.0);
  }

  // The accepted language, stated from section 4.2.1 of RFC 8949.

  ghost predicate CanonicalString(b: bytes, major: nat, s: bytes) {
    |s| <= |b| && b[|b| - |s|..] == s && Shortest(b[..|b| - |s|], major, |s|)
  }

  ghost predicate CanonicalField(b: bytes, f: Field) {
    match f
    case Text(t) => CanonicalString(b, TEXT_STRING, t)
    case Bytes(d) => CanonicalString(b, BYTE_STRING, d)
    case Int(i) => if i >= 0 then Shortest(b, UNSIGNED, i) else Shortest(b, NEGATIVE, -1 - i)
    case Null => b == [0xF6]
  }

  ghost predicate CanonicalEntry(b: bytes, e: Entry) {
    exists j | 0 <= j <= |b| :: Shortest(b[..j], UNSIGNED, e.key) && CanonicalField(b[j..], e.value)
  }

  ghost predicate CanonicalEntries(b: bytes, entries: seq<Entry>)
    decreases |entries|
  {
    if entries == [] then b == []
    else exists j | 0 <= j <= |b| :: CanonicalEntry(b[..j], entries[0]) && CanonicalEntries(b[j..], entries[1..])
  }

  /** A definite-length map of the entries, every head in shortest form, and nothing after. */
  ghost predicate CanonicalMap(b: bytes, entries: seq<Entry>) {
    exists j | 0 <= j <= |b| :: Shortest(b[..j], MAP, |entries|) && CanonicalEntries(b[j..], entries)
  }

  lemma CanonicalStringIsEncoded(b: bytes, major: nat, s: bytes)
    requires major < 8 && |s| < TWO_TO_64
    ensures CanonicalString(b, major, s) <==> b == EncodeHead(major, |s|) + s
  {
    var h := EncodeHead(major, |s|);
    if CanonicalString(b, major, s) {
      ShortestIsEncoded(b[..|b| - |s|], major, |s|);
      assert b == b[..|b| - |s|] + b[|b| - |s|..];
    }
    if b == h + s {
      assert b[..|b| - |s|] == h && b[|b| - |s|..] == s;
      ShortestIsEncoded(h, major, |s|);
    }
  }

  lemma CanonicalFieldIsEncoded(b: bytes, f: Field)
    requires IsField(f)
    ensures CanonicalField(b, f) <==> b == EncodeField(f)
  {
    match f {
      case Text(t) => CanonicalStringIsEncoded(b, TEXT_STRING, t);
      case Bytes(d) => CanonicalStringIsEncoded(b, BYTE_STRING, d);
      case Int(i) => ShortestIsEncoded(b, if i >= 0 then UNSIGNED else NEGATIVE, if i >= 0 then i else -1 - i);
      case Null =>
    }
  }

  lemma CanonicalEntryIsEncoded(b: bytes, e: Entry)
    requires IsEntry(e)
    ensures CanonicalEntry(b, e) <==> b == EncodeEntry(e)
  {
    if CanonicalEntry(b, e) {
      var j :| 0 <= j <= |b| && Shortest(b[..j], UNSIGNED, e.key) && CanonicalField(b[j..], e.value);
      ShortestIsEncoded(b[..j], UNSIGNED, e.key);
      CanonicalFieldIsEncoded(b[j..], e.value);
      assert b == b[..j] + b[j..];
    }
    if b == EncodeEntry(e) {
      var j := |EncodeHead(UNSIGNED, e.key)|;
      assert b[..j] == EncodeHead(UNSIGNED, e.key) && b[j..] == EncodeField(e.value);
      ShortestIsEncoded(b[..j], UNSIGNED, e.key);
      CanonicalFieldIsEncoded(b[j..], e.value);
    }
  }

  lemma {:induction false} CanonicalEntriesAreEncoded(b: bytes, entries: seq<Entry>)
    requires forall j | 0 <= j < |entries| :: IsEntry(entries[j])
    ensures CanonicalEntries(b, entries) <==> b == EncodeEntries(entries)
    decreases |entries|
  {
    hide CanonicalEntry, EncodeEntry, IsEntry;
    if entries != [] {
      if CanonicalEntries(b, entries) {
        var j :| 0 <= j <= |b| && CanonicalEntry(b[..j], entries[0]) && CanonicalEntries(b[j..], entries[1..]);
        CanonicalEntryIsEncoded(b[..j], entries[0]);
        CanonicalEntriesAreEncoded(b[j..], entries[1..]);
        assert b == b[..j] + b[j..];
      }
      if b == EncodeEntries(entries) {
        var j := |EncodeEntry(entries[0])|;
        assert b[..j] == EncodeEntry(entries[0]) && b[j..] == EncodeEntries(entries[1..]);
        CanonicalEntryIsEncoded(b[..j], entries[0]);
        CanonicalEntriesAreEncoded(b[j..], entries[1..]);
      }
    }
  }

  lemma CanonicalMapIsEncoded(b: bytes, entries: seq<Entry>)
    requires IsStrictMap(entries)
    ensures CanonicalMap(b, entries) <==> b == EncodeMap(entries)
  {
    if CanonicalMap(b, entries) {
      var j :| 0 <= j <= |b| && Shortest(b[..j], MAP, |entries|) && CanonicalEntries(b[j..], entries);
      ShortestIsEncoded(b[..j], MAP, |entries|);
      CanonicalEntriesAreEncoded(b[j..], entries);
      assert b == b[..j] + b[j..];
    }
    if b == EncodeMap(entries) {
      var j := |EncodeHead(MAP, |entries|)|;
      assert b[..j] == EncodeHead(MAP, |entries|) && b[j..] == EncodeEntries(entries);
      ShortestIsEncoded(b[..j], MAP, |entries|);
      CanonicalEntriesAreEncoded(b[j..], entries);
    }
  }

  /** A byte string is accepted with these entries if and only if it is their canonical map. */
  lemma AcceptanceCharacterisation(b: bytes, entries: seq<Entry>)
    requires |b| < TWO_TO_63
    ensures DecodeCanonical(b) == Ok(entries) <==> IsStrictMap(entries) && CanonicalMap(b, entries)
  {
    if DecodeCanonical(b) == Ok(entries) {
      DecodeIsSound(b);
      CanonicalMapIsEncoded(b, entries);
    }
    if IsStrictMap(entries) && CanonicalMap(b, entries) {
      CanonicalMapIsEncoded(b, entries);
      DecodeInvertsEncode(entries);
    }
  }

  /** One byte string per value, and no accepted encoding continues another. */
  lemma EncodingsArePrefixFree(a: bytes, b: bytes)
    requires |a| < TWO_TO_63 && |b| < TWO_TO_63
    requires DecodeCanonical(a).Ok? && DecodeCanonical(b).Ok? && a <= b
    ensures a == b
  {
    DecodeIsSound(a);
    var rest := b[|a|..];
    assert b == a + rest;
    ReadEncodedMap(DecodeCanonical(a).value, rest);
  }

  /** Keys in the order of the map are in the bytewise order of their encodings. */
  lemma AcceptedKeysAscendBytewise(b: bytes, j: nat)
    requires |b| < TWO_TO_63 && DecodeCanonical(b).Ok? && j + 1 < |DecodeCanonical(b).value|
    ensures var entries := DecodeCanonical(b).value;
            BytewiseLess(EncodeHead(UNSIGNED, entries[j].key), EncodeHead(UNSIGNED, entries[j + 1].key))
  {
    DecodeIsSound(b);
    var entries := DecodeCanonical(b).value;
    KeyOrderIsBytewise(entries[j].key, entries[j + 1].key);
  }
}
