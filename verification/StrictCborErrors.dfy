/** Which error a refused map gets. */
module StrictCborErrors {
  import opened Wrappers
  import opened Cbor
  import opened CryptoErrors
  import opened StrictCbor
  import opened CborDecoder

  lemma ReadHeadExtends(b: bytes, rest: bytes)
    requires ReadHead(b).Some?
    ensures ReadHead(b + rest) == ReadHead(b) && ReadHead(b).value.size <= |b|
    ensures (b + rest)[ReadHead(b).value.size..] == b[ReadHead(b).value.size..] + rest
  {
    ReadHeadIsSound(b);
    var head := ReadHead(b).value;
    if head.info >= 24 {
      assert (b + rest)[1..head.size] == b[1..head.size];
    }
  }

  lemma ReadValueExtends(b: bytes, rest: bytes)
    requires ReadValue(b).Ok?
    ensures ReadValue(b + rest) == Ok((ReadValue(b).value.0, ReadValue(b).value.1 + rest))
  {
    if DataTypeOf(b[0]) == NullType {
      assert (b + rest)[1..] == b[1..] + rest;
    } else {
      ReadHeadExtends(b, rest);
      var head := ReadHead(b).value;
      var end := head.size + head.argument;
      if end <= |b| {
        assert (b + rest)[head.size..end] == b[head.size..end];
        assert (b + rest)[end..] == b[end..] + rest;
      }
    }
  }

  lemma ReadEntryExtends(b: bytes, rest: bytes)
    requires ReadEntry(b).Ok?
    ensures ReadEntry(b + rest) == Ok((ReadEntry(b).value.0, ReadEntry(b).value.1 + rest))
  {
    ReadHeadExtends(b, rest);
    ReadValueExtends(ReadKey(b).value.1, rest);
  }

  lemma {:induction false} ReadEntriesExtends(b: bytes, count: nat, rest: bytes)
    requires ReadEntries(b, count).Ok?
    ensures ReadEntries(b + rest, count) == Ok((ReadEntries(b, count).value.0, ReadEntries(b, count).value.1 + rest))
    decreases count
  {
    if count > 0 {
      ReadEntryExtends(b, rest);
      ReadEntriesExtends(ReadEntry(b).value.1, count - 1, rest);
    }
  }

  /** Bytes after a map that would decode make the error `InvalidEncoding`. */
  lemma TrailingBytesAreInvalid(b: bytes, rest: bytes)
    requires Decode(b).Ok? && rest != []
    ensures Decode(b + rest) == Err(InvalidEncoding)
  {
    ReadHeadExtends(b, rest);
    ReadEntriesExtends(ReadMapHead(b).value.1, ReadMapHead(b).value.0, rest);
    assert (b + rest)[0] == b[0];
  }

  /** Entries out of order, or with a key twice, make the error `NonCanonicalCbor`. */
  lemma UnorderedKeysAreNotCanonical(entries: seq<Entry>)
    requires |entries| <= 16 && forall j | 0 <= j < |entries| :: IsEntry(entries[j])
    requires !Ascending(entries)
    ensures Decode(EncodeMap(entries)) == Err(NonCanonicalCbor)
  {
    ReadEncodedHead(MAP, |entries|, EncodeEntries(entries));
    ReadEncodedEntries(entries, []);
    assert EncodeEntries(entries) + [] == EncodeEntries(entries);
  }

  /** More than 16 entries make the error `UnknownField` before any entry is read. */
  lemma TooManyEntriesAreUnknown(count: nat, rest: bytes)
    requires 17 <= count < TWO_TO_64
    ensures Decode(EncodeHead(MAP, count) + rest) == Err(UnknownField)
  {
    ReadEncodedHead(MAP, count, rest);
  }

  lemma {:induction false} ReadEntriesStopsAt(entries: seq<Entry>, bad: bytes, count: nat)
    requires forall j | 0 <= j < |entries| :: IsEntry(entries[j])
    requires ReadEntry(bad).Err? && |entries| < count
    ensures ReadEntries(EncodeEntries(entries) + bad, count) == Err(ReadEntry(bad).error)
    decreases |entries|
  {
    hide ReadEntry, EncodeEntry;
    if entries == [] {
      assert [] + bad == bad;
      ReadEntriesFails(bad, count, ReadEntry(bad).error);
    } else {
      var first, tail := EncodeEntry(entries[0]), EncodeEntries(entries[1..]) + bad;
      EncodeEntriesCons(entries, bad);
      ReadEncodedEntry(entries[0], tail);
      ReadEntriesStopsAt(entries[1..], bad, count - 1);
      ReadEntriesFails(first + tail, count, ReadEntry(bad).error);
    }
  }

  /** The first entry that cannot be read decides the error, whatever follows. */
  lemma FirstBadEntryDecides(entries: seq<Entry>, bad: bytes, count: nat)
    requires forall j | 0 <= j < |entries| :: IsEntry(entries[j])
    requires ReadEntry(bad).Err? && |entries| < count <= MAX_MAP_ENTRIES
    ensures Decode(EncodeHead(MAP, count) + (EncodeEntries(entries) + bad)) == Err(ReadEntry(bad).error)
  {
    ReadEncodedHead(MAP, count, EncodeEntries(entries) + bad);
    ReadEntriesStopsAt(entries, bad, count);
  }

  /** A negative key is an unknown field. */
  lemma NegativeKeyIsUnknown(entries: seq<Entry>, i: int, rest: bytes, count: nat)
    requires forall j | 0 <= j < |entries| :: IsEntry(entries[j])
    requires -TWO_TO_63 <= i < 0 && |entries| < count <= MAX_MAP_ENTRIES
    ensures Decode(EncodeHead(MAP, count) + (EncodeEntries(entries) + (EncodeField(Int(i)) + rest))) == Err(UnknownField)
  {
    ReadEncodedInt(i, rest);
    FirstBadEntryDecides(entries, EncodeField(Int(i)) + rest, count);
  }

  lemma ReadKeyThenBadValue(key: nat, value: bytes)
    requires key < TWO_TO_63 && ReadValue(value).Err?
    ensures ReadEntry(EncodeHead(UNSIGNED, key) + value) == Err(ReadValue(value).error)
  {
    ReadEncodedInt(key, value);
  }

  /** A tag, a float or an indefinite-length string as a value is not canonical. */
  lemma TagFloatOrIndefiniteIsNotCanonical(entries: seq<Entry>, key: nat, value: bytes, count: nat)
    requires forall j | 0 <= j < |entries| :: IsEntry(entries[j])
    requires key < TWO_TO_63 && |entries| < count <= MAX_MAP_ENTRIES
    requires value != [] && (0xC0 <= value[0] <= 0xDB || 0xF9 <= value[0] <= 0xFB || value[0] == 0x5F || value[0] == 0x7F)
    ensures Decode(EncodeHead(MAP, count) + (EncodeEntries(entries) + (EncodeHead(UNSIGNED, key) + value))) == Err(NonCanonicalCbor)
  {
    assert ReadValue(value) == Err(NonCanonicalCbor);
    ReadKeyThenBadValue(key, value);
    FirstBadEntryDecides(entries, EncodeHead(UNSIGNED, key) + value, count);
  }

  /** What the first byte of a value decides: tags, floats and indefinite strings are `NonCanonicalCbor`,
      arrays, maps, other simple values and reserved forms `InvalidEncoding`, and 0xF6 is null. */
  lemma FirstByteOfValue(b: byte, rest: bytes)
    ensures var read := ReadValue([b] + rest);
            && (0xC0 <= b <= 0xDB || 0xF9 <= b <= 0xFB || b == 0x5F || b == 0x7F ==> read == Err(NonCanonicalCbor))
            && (0x80 <= b <= 0xBF || 0xDC <= b <= 0xF5 || b == 0xF7 || b == 0xF8 || 0xFC <= b ==> read == Err(InvalidEncoding))
            && (0x1C <= b <= 0x1F || 0x3C <= b <= 0x3F || 0x5C <= b <= 0x5E || 0x7C <= b <= 0x7E ==> read == Err(InvalidEncoding))
            && (b == 0xF6 ==> read == Ok((Null, rest)))
  {
    assert ([b] + rest)[1..] == rest;
  }

  /** And of a key: only integers are read. */
  lemma FirstByteOfKey(b: byte, rest: bytes)
    ensures var read := ReadKey([b] + rest);
            && (0xC0 <= b <= 0xDB || 0xF9 <= b <= 0xFB ==> read == Err(NonCanonicalCbor))
            && (0x40 <= b <= 0xBF || 0xDC <= b <= 0xF8 || 0xFC <= b ==> read == Err(InvalidEncoding))
            && (0x1C <= b <= 0x1F || 0x3C <= b <= 0x3F ==> read == Err(InvalidEncoding))
  {
  }

  /** And of the whole input: an indefinite map is `NonCanonicalCbor`, anything but a map `InvalidEncoding`. */
  lemma FirstByteOfMap(b: byte, rest: bytes)
    ensures Decode([]) == Err(InvalidEncoding)
    ensures b == 0xBF ==> Decode([b] + rest) == Err(NonCanonicalCbor)
    ensures b < 0xA0 || 0xC0 <= b || 0xBC <= b <= 0xBE ==> Decode([b] + rest) == Err(InvalidEncoding)
    ensures 0xB1 <= b <= 0xB7 ==> Decode([b] + rest) == Err(UnknownField)
  {
  }
}
