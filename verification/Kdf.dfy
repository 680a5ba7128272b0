/** Password KDF parameters and their codec (`crates/crypto-core/src/kdf.rs`). */
module KdfParameters {
  import opened Wrappers
  import opened Cbor
  import opened Utf8
  import opened CryptoErrors
  import opened StrictCbor
  import opened StrictMaps

  const MIN_MEMORY_KIB: nat := 65_536
  const MIN_ITERATIONS: nat := 3
  const MIN_PARALLELISM: nat := 1
  const SALT_LEN: nat := 16
  const OUTPUT_LEN: nat := 32
  const ARGON2_VERSION: nat := 19
  const U32_MAX: nat := 0xFFFF_FFFF
  const ALGORITHM: bytes := Ascii("argon2id")

  datatype KdfParams = KdfParams(memoryKib: nat, iterations: nat, parallelism: nat, salt: bytes)
  {
    /** `validate`. */
    predicate Valid() {
      memoryKib >= MIN_MEMORY_KIB && iterations >= MIN_ITERATIONS && parallelism >= MIN_PARALLELISM
    }

    /** What the Rust types guarantee: `u32` fields and a salt of 16 bytes. */
    predicate Typed() {
      memoryKib <= U32_MAX && iterations <= U32_MAX && parallelism <= U32_MAX && |salt| == SALT_LEN
    }
  }

  function NewParams(memoryKib: nat, iterations: nat, parallelism: nat, salt: bytes): Result<KdfParams, Error> {
    var p := KdfParams(memoryKib, iterations, parallelism, salt);
    if |salt| != SALT_LEN || !p.Valid() then Err(InvalidKdfParameters) else Ok(p)
  }

  /** `validate_against_memory_cap`: at most a quarter of the reported memory. */
  predicate WithinCap(p: KdfParams, reportedKib: nat) { p.memoryKib * 4 <= reportedKib }

  function ParamEntries(p: KdfParams): seq<Entry> {
    [ Entry(1, Text(ALGORITHM)), Entry(2, Int(ARGON2_VERSION)), Entry(3, Int(p.memoryKib)), Entry(4, Int(p.iterations)),
      Entry(5, Int(p.parallelism)), Entry(6, Bytes(p.salt)), Entry(7, Int(OUTPUT_LEN)) ]
  }

  function EncodeParams(p: KdfParams): Result<bytes, Error> {
    if p.Valid() then Ok(EncodeMap(ParamEntries(p))) else Err(InvalidKdfParameters)
  }

  function PositiveU32(value: Option<int>): Option<nat> {
    if value.Some? && 0 <= value.value <= U32_MAX then Some(value.value) else None
  }

  /** `decode_canonical_cbor` after its map checks. */
  function ParamsOf(entries: seq<Entry>, reportedKib: nat): Result<KdfParams, Error> {
    var memory, iterations, parallelism := PositiveU32(IntAt(entries, 3)), PositiveU32(IntAt(entries, 4)), PositiveU32(IntAt(entries, 5));
    var salt := BytesAt(entries, 6);
    if TextAt(entries, 1) != Some(ALGORITHM) || IntAt(entries, 2) != Some(ARGON2_VERSION) then Err(InvalidKdfParameters)
    else if memory.None? || iterations.None? || parallelism.None? then Err(InvalidKdfParameters)
    else if salt.None? || |salt.value| != SALT_LEN || IntAt(entries, 7) != Some(OUTPUT_LEN) then Err(InvalidKdfParameters)
    else
      var p := NewParams(memory.value, iterations.value, parallelism.value, salt.value);
      if p.Ok? && !WithinCap(p.value, reportedKib) then Err(KdfResourceLimit) else p
  }

  function DecodeParams(b: bytes, reportedKib: nat): Result<KdfParams, Error> {
    var decoded := Decode(b);
    if decoded.Err? then Err(decoded.error)
    else if RequireKeys(decoded.value, 7).Err? then Err(RequireKeys(decoded.value, 7).error)
    else if EncodeMap(decoded.value) != b then Err(NonCanonicalCbor)
    else ParamsOf(decoded.value, reportedKib)
  }

  lemma AlgorithmIsText()
    ensures |ALGORITHM| == 8 && IsUtf8(ALGORITHM)
  {
    assert forall j | 0 <= j < |ALGORITHM| :: ALGORITHM[j] <= 0x7F;
    AsciiIsUtf8(ALGORITHM);
  }

  lemma EntriesAreStrict(p: KdfParams)
    requires p.Typed()
    ensures IsStrictMap(ParamEntries(p)) && Numbered(ParamEntries(p))
  {
    AlgorithmIsText();
    hide IsUtf8;
    var entries := ParamEntries(p);
    assert IsEntry(entries[0]) && IsEntry(entries[1]) && IsEntry(entries[2]) && IsEntry(entries[3])
        && IsEntry(entries[4]) && IsEntry(entries[5]) && IsEntry(entries[6]);
  }

  lemma EntriesReadBack(p: KdfParams, reportedKib: nat)
    requires p.Typed() && p.Valid()
    ensures RequireKeys(ParamEntries(p), 7).Ok?
    ensures ParamsOf(ParamEntries(p), reportedKib) == if WithinCap(p, reportedKib) then Ok(p) else Err(KdfResourceLimit)
  {
    var e := ParamEntries(p);
    NumberedIsFound(e);
    hide Find, RequireKeys;
    assert Find(e, 0 + 1) == Some(e[0].value) && Find(e, 1 + 1) == Some(e[1].value) && Find(e, 2 + 1) == Some(e[2].value)
        && Find(e, 3 + 1) == Some(e[3].value) && Find(e, 4 + 1) == Some(e[4].value) && Find(e, 5 + 1) == Some(e[5].value)
        && Find(e, 6 + 1) == Some(e[6].value);
  }

  /** Decoding inverts encoding, under a cap that admits the memory; above it nothing decodes. */
  lemma DecodeInvertsEncodeParams(p: KdfParams, reportedKib: nat)
    requires p.Typed() && EncodeParams(p).Ok?
    ensures DecodeParams(EncodeParams(p).value, reportedKib) == if WithinCap(p, reportedKib) then Ok(p) else Err(KdfResourceLimit)
  {
    EntriesAreStrict(p);
    DecodeInvertsEncode(ParamEntries(p));
    EntriesReadBack(p, reportedKib);
    hide ParamEntries, ParamsOf, RequireKeys, Decode, EncodeMap, ALGORITHM;
  }

  /** What decodes is within every bound, and its bytes are the ones it encodes to: stored
      parameters can never be weaker than the contract. */
  lemma EncodeInvertsDecodeParams(b: bytes, reportedKib: nat)
    requires |b| < TWO_TO_63 && DecodeParams(b, reportedKib).Ok?
    ensures var p := DecodeParams(b, reportedKib).value;
            p.Valid() && p.Typed() && WithinCap(p, reportedKib) && EncodeParams(p) == Ok(b)
  {
    var entries := Decode(b).value;
    DecodeIsSound(b);
    FoundIsParams(entries, reportedKib);
  }

  lemma FoundIsParams(entries: seq<Entry>, reportedKib: nat)
    requires Ascending(entries) && RequireKeys(entries, 7).Ok? && ParamsOf(entries, reportedKib).Ok?
    ensures entries == ParamEntries(ParamsOf(entries, reportedKib).value)
  {
    KeysInPlace(entries, 7);
    hide Find, RequireKeys;
    var e := ParamEntries(ParamsOf(entries, reportedKib).value);
    assert entries[1 - 1].value == e[0].value && entries[2 - 1].value == e[1].value && entries[3 - 1].value == e[2].value
        && entries[4 - 1].value == e[3].value && entries[5 - 1].value == e[4].value && entries[6 - 1].value == e[5].value
        && entries[7 - 1].value == e[6].value;
    assert entries[1 - 1].key == 1 && entries[2 - 1].key == 2 && entries[3 - 1].key == 3 && entries[4 - 1].key == 4
        && entries[5 - 1].key == 5 && entries[6 - 1].key == 6 && entries[7 - 1].key == 7;
  }
}
