/** Encodings byte for byte: heads and texts as they stand on the wire. */
module WireBytes {
  import opened Wrappers
  import opened Cbor
  import opened Utf8
  import opened CryptoErrors
  import opened StrictCbor
  import opened Envelope
  import opened KdfParameters
  import StrictMaps

  /** Short fields on the wire: text under 0x60, bytes under 0x40, integers under 0x00 and 0x20, null 0xF6. */
  lemma ShortFieldBytes(text: bytes, i: int)
    requires |text| < 24 && -24 <= i < 24
    ensures EncodeField(Text(text)) == [0x60 + |text|] + text
    ensures EncodeField(Bytes(text)) == [0x40 + |text|] + text
    ensures EncodeField(Int(i)) == if i >= 0 then [i] else [0x20 - 1 - i]
    ensures EncodeField(Null) == [0xF6]
  {
  }

  /** A contract map on the wire: its head under 0xA0, then each key and its field. */
  lemma MapBytes(entries: seq<Entry>)
    requires |entries| <= 16
    ensures EncodeMap(entries) == [0xA0 + |entries|] + EncodeEntries(entries)
    ensures entries != [] && entries[0].key < 24 ==>
              EncodeEntries(entries) == [entries[0].key] + EncodeField(entries[0].value) + EncodeEntries(entries[1..])
  {
  }

  /** The texts of the formats. */
  lemma FormatTexts()
    ensures FORMAT_VERSION == [0x63, 0x72, 0x79, 0x70, 0x74, 0x6F, 0x2D, 0x65, 0x6E, 0x76, 0x65, 0x6C, 0x6F, 0x70, 0x65, 0x2F, 0x76, 0x31]
    ensures ALGORITHM == [0x61, 0x72, 0x67, 0x6F, 0x6E, 0x32, 0x69, 0x64]
  {
  }

  /** Six fields, of which the first is a text of 18 characters, as in every envelope and in all
      authenticated data. */
  lemma FormatComesFirst(format: bytes, entries: seq<Entry>)
    requires |entries| == 6 && entries[0] == Entry(1, Text(format)) && |format| == 18
    ensures EncodeMap(entries) == [0xA6] + ([0x01] + ([0x72] + format) + EncodeEntries(entries[1..]))
  {
    MapBytes(entries);
    ShortFieldBytes(format, 0);
    hide *;
  }

  /** The seven fields of stored parameters. */
  lemma ParamFields(p: KdfParams)
    ensures ParamEntries(p) == [
              Entry(1, Text(Ascii("argon2id"))), Entry(2, Int(19)), Entry(3, Int(p.memoryKib)), Entry(4, Int(p.iterations)),
              Entry(5, Int(p.parallelism)), Entry(6, Bytes(p.salt)), Entry(7, Int(32))]
  {
  }

  /** What stored parameters decode to, in literal bounds: below a minimum, or above what 32 bits hold, they are
      invalid, and above a quarter of the reported memory refused; otherwise they come back. */
  lemma StoredParamsAnswer(p: KdfParams, reportedKib: nat)
    requires p.memoryKib < TWO_TO_63 && p.iterations < TWO_TO_63 && p.parallelism < TWO_TO_63 && |p.salt| == 16
    ensures DecodeParams(EncodeMap(ParamEntries(p)), reportedKib)
         == if !(65_536 <= p.memoryKib <= 4_294_967_295 && 3 <= p.iterations <= 4_294_967_295 && 1 <= p.parallelism <= 4_294_967_295)
            then Err(InvalidKdfParameters)
            else if p.memoryKib > reportedKib / 4 then Err(KdfResourceLimit)
            else Ok(p)
  {
    StoredIsStrict(p);
    DecodeInvertsEncode(ParamEntries(p));
    FoundParams(p, reportedKib);
    hide ParamEntries, ParamsOf, EncodeMap, Decode, StrictMaps.RequireKeys;
  }

  lemma StoredIsStrict(p: KdfParams)
    requires p.memoryKib < TWO_TO_63 && p.iterations < TWO_TO_63 && p.parallelism < TWO_TO_63 && |p.salt| == 16
    ensures IsStrictMap(ParamEntries(p)) && StrictMaps.Numbered(ParamEntries(p))
  {
    AlgorithmIsText();
    hide IsUtf8;
    var entries := ParamEntries(p);
    assert IsEntry(entries[0]) && IsEntry(entries[1]) && IsEntry(entries[2]) && IsEntry(entries[3])
        && IsEntry(entries[4]) && IsEntry(entries[5]) && IsEntry(entries[6]);
  }

  lemma FoundParams(p: KdfParams, reportedKib: nat)
    requires StrictMaps.Numbered(ParamEntries(p)) && |p.salt| == 16
    ensures StrictMaps.RequireKeys(ParamEntries(p), 7).Ok?
    ensures ParamsOf(ParamEntries(p), reportedKib)
         == if !(65_536 <= p.memoryKib <= 4_294_967_295 && 3 <= p.iterations <= 4_294_967_295 && 1 <= p.parallelism <= 4_294_967_295)
            then Err(InvalidKdfParameters)
            else if p.memoryKib > reportedKib / 4 then Err(KdfResourceLimit)
            else Ok(p)
  {
    var e := ParamEntries(p);
    StrictMaps.NumberedIsFound(e);
    hide StrictMaps.Find, StrictMaps.RequireKeys;
    assert StrictMaps.Find(e, 0 + 1) == Some(e[0].value) && StrictMaps.Find(e, 1 + 1) == Some(e[1].value)
        && StrictMaps.Find(e, 2 + 1) == Some(e[2].value) && StrictMaps.Find(e, 3 + 1) == Some(e[3].value)
        && StrictMaps.Find(e, 4 + 1) == Some(e[4].value) && StrictMaps.Find(e, 5 + 1) == Some(e[5].value)
        && StrictMaps.Find(e, 6 + 1) == Some(e[6].value);
  }
}
