/** The codec as the source drives it: a decoder whose position moves, and loops over entries. */
module CborDecoder {
  import opened Wrappers
  import opened Cbor
  import opened Utf8
  import opened CryptoErrors
  import opened StrictCbor

  /** A reading position in an input slice. */
  class Decoder {
    const input: bytes
    var position: nat

    ghost predicate Valid()
      reads this
    {
      position <= |input|
    }

    /** The bytes not read yet. */
    ghost function Rest(): bytes
      requires Valid()
      reads this
    {
      input[position..]
    }

    constructor (input: bytes)
      ensures Valid() && this.input == input && position == 0 && Rest() == input
    {
      this.input := input;
      position := 0;
    }

    /** `Decoder::map`, with the wrapper's checks on the length it reports. */
    method MapLength() returns (r: Result<nat, Error>)
      requires Valid()
      modifies this
      ensures Valid()
      ensures var spec := ReadMapHead(old(Rest()));
              if spec.Err? then r == Err(spec.error) else r == Ok(spec.value.0) && Rest() == spec.value.1
    {
      if position == |input| || input[position] / 32 != MAP {
        return Err(InvalidEncoding);
      }
      if input[position] % 32 == 31 {
        return Err(NonCanonicalCbor);
      }
      var head := ReadHead(input[position..]);
      if head.None? {
        return Err(InvalidEncoding);
      }
      if head.value.argument > MAX_MAP_ENTRIES {
        return Err(UnknownField);
      }
      position := position + head.value.size;
      return Ok(head.value.argument);
    }

    /** `Decoder::i64`. */
    method Int64() returns (r: Result<int, Error>)
      requires Valid()
      modifies this
      ensures Valid()
      ensures var spec := ReadInt(old(Rest()));
              if spec.Err? then r == Err(spec.error) else r == Ok(spec.value.0) && Rest() == spec.value.1
    {
      var head := ReadHead(input[position..]);
      if head.None? || head.value.major > 1 || head.value.argument >= TWO_TO_63 {
        return Err(InvalidEncoding);
      }
      position := position + head.value.size;
      return Ok(if head.value.major == 0 then head.value.argument else -1 - head.value.argument);
    }

    /** `Decoder::bytes`; `Decoder::str` adds the UTF-8 check. */
    method String() returns (r: Result<bytes, Error>)
      requires Valid()
      modifies this
      ensures Valid()
      ensures var spec := ReadString(old(Rest()));
              if spec.Err? then r == Err(spec.error) else r == Ok(spec.value.0) && Rest() == spec.value.1
    {
      var head := ReadHead(input[position..]);
      if head.None? || position + head.value.size + head.value.argument > |input| {
        assert |Rest()| == |input| - position;
        return Err(InvalidEncoding);
      }
      var start := position + head.value.size;
      SliceOfSuffix(input, position, head.value.size, head.value.size + head.value.argument);
      position := start + head.value.argument;
      return Ok(input[start..position]);
    }

    method Key() returns (r: Result<nat, Error>)
      requires Valid()
      modifies this
      ensures Valid()
      ensures var spec := StrictCbor.ReadKey(old(Rest()));
              if spec.Err? then r == Err(spec.error) else r == Ok(spec.value.0) && Rest() == spec.value.1
    {
      if position == |input| {
        assert Rest() == [];
        return Err(InvalidEncoding);
      }
      assert Rest()[0] == input[position];
      match DataTypeOf(input[position]) {
        case IntType =>
          var value := Int64();
          if value.Err? {
            return Err(value.error);
          }
          if value.value < 0 {
            return Err(UnknownField);
          }
          return Ok(value.value);
        case TagOrFloat => return Err(NonCanonicalCbor);
        case _ => return Err(InvalidEncoding);
      }
    }

    method Value() returns (r: Result<Field, Error>)
      requires Valid()
      modifies this
      ensures Valid()
      ensures var spec := StrictCbor.ReadValue(old(Rest()));
              if spec.Err? then r == Err(spec.error) else r == Ok(spec.value.0) && Rest() == spec.value.1
    {
      if position == |input| {
        assert Rest() == [];
        return Err(InvalidEncoding);
      }
      assert Rest()[0] == input[position];
      match DataTypeOf(input[position]) {
        case TextType =>
          var text := String();
          if text.Err? {
            return Err(text.error);
          }
          if !IsUtf8(text.value) {
            return Err(InvalidEncoding);
          }
          return Ok(Text(text.value));
        case BytesType =>
          var data := String();
          return if data.Err? then Err(data.error) else Ok(Bytes(data.value));
        case NullType =>
          position := position + 1;
          return Ok(Null);
        case IntType =>
          var number := Int64();
          return if number.Err? then Err(number.error) else Ok(Int(number.value));
        case TagOrFloat => return Err(NonCanonicalCbor);
        case Indefinite => return Err(NonCanonicalCbor);
        case OtherType => return Err(InvalidEncoding);
      }
    }

    method NextEntry() returns (r: Result<Entry, Error>)
      requires Valid()
      modifies this
      ensures Valid()
      ensures var spec := ReadEntry(old(Rest()));
              if spec.Err? then r == Err(spec.error) else r == Ok(spec.value.0) && Rest() == spec.value.1
    {
      var key := Key();
      if key.Err? {
        return Err(key.error);
      }
      var value := Value();
      return if value.Err? then Err(value.error) else Ok(Entry(key.value, value.value));
    }

    /** The loop over the announced number of entries. */
    method Entries(len: nat) returns (r: Result<seq<Entry>, Error>)
      requires Valid()
      modifies this
      ensures Valid()
      ensures var spec := ReadEntries(old(Rest()), len);
              if spec.Err? then r == Err(spec.error) else r == Ok(spec.value.0) && Rest() == spec.value.1
    {
      hide ReadEntry;
      ghost var whole := ReadEntries(Rest(), len);
      var entries := [];
      var i := 0;
      ResumeNothing(whole, Rest(), len);
      while i < len
        invariant Valid() && i <= len
        invariant Resumes(whole, entries, Rest(), len - i)
      {
        ghost var before := Rest();
        var entry := NextEntry();
        if entry.Err? {
          ResumeFails(whole, entries, before, len - i);
          return Err(entry.error);
        }
        ResumeCons(whole, entries, before, len - i, entry.value, Rest());
        entries := entries + [entry.value];
        i := i + 1;
      }
      ResumeEnds(whole, entries, Rest());
      return Ok(entries);
    }
  }

  lemma ConcatAssociates<T>(a: seq<T>, b: seq<T>, c: seq<T>)
    ensures a + (b + c) == (a + b) + c
  {
  }

  lemma SliceOfSuffix(b: bytes, start: nat, low: nat, high: nat)
    requires start <= start + low <= start + high <= |b|
    ensures b[start..][low..high] == b[start + low..start + high]
    ensures b[start..][high..] == b[start + high..]
  {
  }

  /** The whole result is the entries already read in front of what remains to be read. */
  ghost predicate Resumes(whole: Result<(seq<Entry>, bytes), Error>, done: seq<Entry>, b: bytes, count: nat) {
    var remaining := ReadEntries(b, count);
    whole == if remaining.Err? then remaining else Ok((done + remaining.value.0, remaining.value.1))
  }

  lemma ResumeNothing(whole: Result<(seq<Entry>, bytes), Error>, b: bytes, count: nat)
    requires whole == ReadEntries(b, count)
    ensures Resumes(whole, [], b, count)
  {
    if whole.Ok? {
      assert [] + whole.value.0 == whole.value.0;
    }
  }

  lemma ResumeFails(whole: Result<(seq<Entry>, bytes), Error>, done: seq<Entry>, b: bytes, count: nat)
    requires Resumes(whole, done, b, count) && count > 0 && ReadEntry(b).Err?
    ensures whole == Err(ReadEntry(b).error)
  {
  }

  lemma ResumeCons(whole: Result<(seq<Entry>, bytes), Error>, done: seq<Entry>, b: bytes, count: nat, entry: Entry, tail: bytes)
    requires Resumes(whole, done, b, count) && count > 0 && ReadEntry(b) == Ok((entry, tail))
    ensures Resumes(whole, done + [entry], tail, count - 1)
  {
    hide ReadEntry;
    var remaining := ReadEntries(tail, count - 1);
    if remaining.Ok? {
      ReadEntriesCons(b, entry, tail, remaining.value.0, remaining.value.1, count - 1);
      ConcatAssociates(done, [entry], remaining.value.0);
    } else {
      ReadEntriesFails(b, count, remaining.error);
    }
  }

  lemma ResumeEnds(whole: Result<(seq<Entry>, bytes), Error>, done: seq<Entry>, b: bytes)
    requires Resumes(whole, done, b, 0)
    ensures whole == Ok((done, b))
  {
    assert done + [] == done;
  }

  /** The check of neighbouring keys. */
  method KeysAscend(entries: seq<Entry>) returns (ok: bool)
    ensures ok <==> Ascending(entries)
  {
    var i := 1;
    while i < |entries|
      invariant 1 <= i
      invariant forall j | 0 <= j < i - 1 && j < |entries| - 1 :: entries[j].key < entries[j + 1].key
    {
      if entries[i - 1].key >= entries[i].key {
        assert !(entries[i - 1].key < entries[i - 1 + 1].key);
        return false;
      }
      i := i + 1;
    }
    return true;
  }

  /** `StrictMap::decode` with its moving decoder is the function `Decode`. */
  method DecodeMap(b: bytes) returns (r: Result<seq<Entry>, Error>)
    ensures r == Decode(b)
  {
    var decoder := new Decoder(b);
    var len := decoder.MapLength();
    if len.Err? {
      return Err(len.error);
    }
    var entries := decoder.Entries(len.value);
    if entries.Err? {
      return entries;
    }
    if decoder.position != |b| {
      return Err(InvalidEncoding);
    }
    var ascending := KeysAscend(entries.value);
    return if ascending then entries else Err(NonCanonicalCbor);
  }

  lemma {:induction false} EncodeEntriesSnoc(entries: seq<Entry>, last: Entry)
    ensures EncodeEntries(entries + [last]) == EncodeEntries(entries) + EncodeEntry(last)
  {
    if entries == [] {
      assert [] + [last] == [last] && [last][1..] == [];
      assert EncodeEntries([]) == [];
      assert EncodeEntries([last]) == EncodeEntry(last) + EncodeEntries([]);
    } else {
      assert (entries + [last])[1..] == entries[1..] + [last];
      EncodeEntriesSnoc(entries[1..], last);
    }
  }

  /** One turn of the loop of `encode_map`. */
  method AppendEntry(written: bytes, e: Entry) returns (b: bytes)
    ensures b == written + EncodeEntry(e)
  {
    b := written + EncodeHead(UNSIGNED, e.key);
    match e.value {
      case Text(t) => b := b + EncodeHead(TEXT_STRING, |t|) + t;
      case Bytes(d) => b := b + EncodeHead(BYTE_STRING, |d|) + d;
      case Int(n) => b := b + if n >= 0 then EncodeHead(UNSIGNED, n) else EncodeHead(NEGATIVE, -1 - n);
      case Null => b := b + [0xF6];
    }
  }

  /** The loop of `encode_map` writes the entries in the order given. */
  method EncodeMapInOrder(entries: seq<Entry>) returns (b: bytes)
    ensures b == EncodeMap(entries)
  {
    b := EncodeHead(MAP, |entries|);
    ghost var head := b;
    var i := 0;
    while i < |entries|
      invariant i <= |entries|
      invariant b == head + EncodeEntries(entries[..i])
    {
      assert entries[..i + 1] == entries[..i] + [entries[i]];
      EncodeEntriesSnoc(entries[..i], entries[i]);
      ConcatAssociates(head, EncodeEntries(entries[..i]), EncodeEntry(entries[i]));
      b := AppendEntry(b, entries[i]);
      i := i + 1;
    }
    assert entries[..i] == entries;
  }
}
