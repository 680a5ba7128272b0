/** Round trips, injectivity, binding and size of contexts and envelopes. */
module EnvelopeProofs {
  import opened Wrappers
  import opened Cbor
  import opened Utf8
  import opened CryptoErrors
  import opened StrictCbor
  import opened StrictMaps
  import opened Envelope

  // Maps with exactly the keys 1..6.

  /** What six found fields say about the whole list. */
  lemma SixEntries(entries: seq<Entry>)
    requires Ascending(entries) && RequireKeys(entries, 6).Ok?
    ensures forall key | 1 <= key <= 6 :: Find(entries, key).Some?
    ensures entries == Six(Find(entries, 1).value, Find(entries, 2).value, Find(entries, 3).value,
                           Find(entries, 4).value, Find(entries, 5).value, Find(entries, 6).value)
  {
    KeysInPlace(entries, 6);
    var found := Six(Find(entries, 1).value, Find(entries, 2).value, Find(entries, 3).value,
                     Find(entries, 4).value, Find(entries, 5).value, Find(entries, 6).value);
    forall j | 0 <= j < 6
      ensures entries[j] == found[j]
    {
      assert entries[j + 1 - 1] == Entry(j + 1, Find(entries, j + 1).value);
    }
  }

  /** Looking up a list with the keys 1..6 in order. */
  lemma FindInSix(f1: Field, f2: Field, f3: Field, f4: Field, f5: Field, f6: Field)
    ensures var entries := Six(f1, f2, f3, f4, f5, f6);
            && Find(entries, 1) == Some(f1) && Find(entries, 2) == Some(f2) && Find(entries, 3) == Some(f3)
            && Find(entries, 4) == Some(f4) && Find(entries, 5) == Some(f5) && Find(entries, 6) == Some(f6)
            && RequireKeys(entries, 6).Ok? && Ascending(entries)
  {
    var entries := Six(f1, f2, f3, f4, f5, f6);
    assert Numbered(entries);
    NumberedIsFound(entries);
    hide Find;
    assert Find(entries, 0 + 1) == Some(entries[0].value) && Find(entries, 1 + 1) == Some(entries[1].value)
        && Find(entries, 2 + 1) == Some(entries[2].value) && Find(entries, 3 + 1) == Some(entries[3].value)
        && Find(entries, 4 + 1) == Some(entries[4].value) && Find(entries, 5 + 1) == Some(entries[5].value);
  }

  // Contexts.

  lemma FormatVersionIsText()
    ensures |FORMAT_VERSION| == 18 && IsUtf8(FORMAT_VERSION)
  {
    assert forall j | 0 <= j < |FORMAT_VERSION| :: FORMAT_VERSION[j] <= 0x7F;
    AsciiIsUtf8(FORMAT_VERSION);
  }

  lemma SixIsStrict(f1: Field, f2: Field, f3: Field, f4: Field, f5: Field, f6: Field)
    requires IsField(f1) && IsField(f2) && IsField(f3) && IsField(f4) && IsField(f5) && IsField(f6)
    ensures IsStrictMap(Six(f1, f2, f3, f4, f5, f6))
  {
    var entries := Six(f1, f2, f3, f4, f5, f6);
    assert IsEntry(entries[0]) && IsEntry(entries[1]) && IsEntry(entries[2])
        && IsEntry(entries[3]) && IsEntry(entries[4]) && IsEntry(entries[5]);
  }

  /** Storable fields under the keys 1..6 make a strict map that reads back. */
  lemma DecodeInvertsEncodeSix(f1: Field, f2: Field, f3: Field, f4: Field, f5: Field, f6: Field)
    requires IsField(f1) && IsField(f2) && IsField(f3) && IsField(f4) && IsField(f5) && IsField(f6)
    requires f1 == Text(FORMAT_VERSION)
    ensures DecodeSixKeys(EncodeMap(Six(f1, f2, f3, f4, f5, f6))) == Ok(Six(f1, f2, f3, f4, f5, f6))
  {
    var entries := Six(f1, f2, f3, f4, f5, f6);
    SixIsStrict(f1, f2, f3, f4, f5, f6);
    DecodeInvertsEncode(entries);
    FindInSix(f1, f2, f3, f4, f5, f6);
  }

  lemma SixMakeContext(f1: Field, c: Context, kindText: bytes)
    requires ParseKind(kindText) == Some(c.kind) && c.Valid()
    ensures ContextOf(Six(f1, Text(c.accountId), IdField(c.vaultId), IdField(c.itemId), Text(kindText), Int(c.keyVersion))) == Ok(c)
  {
    FindInSix(f1, Text(c.accountId), IdField(c.vaultId), IdField(c.itemId), Text(kindText), Int(c.keyVersion));
  }

  /** Decoding inverts encoding on valid contexts. */
  lemma DecodeInvertsEncodeAad(c: Context)
    requires IsContext(c) && EncodeAad(c).Ok?
    ensures DecodeAad(EncodeAad(c).value) == Ok(c)
  {
    FormatVersionIsText();
    AsStrIsText(c.kind);
    ParseInvertsAsStr(c.kind);
    var f1, f2, f3, f4 := Text(FORMAT_VERSION), Text(c.accountId), IdField(c.vaultId), IdField(c.itemId);
    DecodeInvertsEncodeSix(f1, f2, f3, f4, Text(c.kind.AsStr()), Int(c.keyVersion));
    SixMakeContext(f1, c, c.kind.AsStr());
  }

  /** Whatever bytes decode to a context are the bytes that context encodes to. */
  lemma EncodeInvertsDecodeAad(b: bytes)
    requires |b| < TWO_TO_63 && DecodeAad(b).Ok?
    ensures EncodeAad(DecodeAad(b).value) == Ok(b)
  {
    var entries := DecodeSixKeys(b).value;
    DecodeIsSound(b);
    SixEntries(entries);
    var c := DecodeAad(b).value;
    AsStrInvertsParse(TextAt(entries, 5).value);
    assert IsField(entries[5].value) && entries[5].value == Find(entries, 6).value;
    assert entries == AadEntries(c);
  }

  /** Distinct contexts have distinct authenticated bytes. */
  lemma AadIsInjective(c: Context, d: Context)
    requires IsContext(c) && IsContext(d) && EncodeAad(c).Ok? && EncodeAad(c) == EncodeAad(d)
    ensures c == d
  {
    DecodeInvertsEncodeAad(c);
    DecodeInvertsEncodeAad(d);
  }

  /** The byte comparison of `open_envelope` never fails after its context comparison passed. */
  lemma ByteComparisonIsImplied(aad: bytes, expected: Context)
    requires |aad| < TWO_TO_63 && DecodeAad(aad) == Ok(expected)
    ensures EncodeAad(expected) == Ok(aad)
  {
    EncodeInvertsDecodeAad(aad);
  }

  // Sizes.

  /** The length of a shortest head. */
  function HeadLength(n: nat): nat {
    if n < 24 then 1 else if n < 0x100 then 2 else if n < 0x1_0000 then 3 else if n < 0x1_0000_0000 then 5 else 9
  }

  /** The length of a byte or text string with its head. */
  function StringLength(n: nat): nat { HeadLength(n) + n }

  /** An id as text, or null. */
  function IdFieldLength(id: Option<bytes>): nat {
    if id.Some? then StringLength(|id.value|) else 1
  }

  function KindLength(kind: RecordKind): nat {
    match kind
    case AccountWrap => 12
    case RecoveryWrap => 13
    case VaultWrap => 10
    case ItemWrap => 9
    case ItemPayload => 12
    case ExportManifest => 15
  }

  /** The length of a context's authenticated data: a map head, six keys and six fields. */
  function AadLength(c: Context): nat {
    7 + StringLength(18) + StringLength(|c.accountId|) + IdFieldLength(c.vaultId) + IdFieldLength(c.itemId)
    + StringLength(KindLength(c.kind)) + HeadLength(c.keyVersion)
  }

  /** The length of the envelope of a plaintext of `n` bytes. */
  function EnvelopeLength(c: Context, n: nat): nat {
    7 + StringLength(18) + StringLength(KindLength(c.kind)) + HeadLength(c.keyVersion) + StringLength(NONCE_LEN)
    + StringLength(n + TAG_LEN) + StringLength(AadLength(c))
  }

  lemma HeadSize(major: nat, n: nat)
    requires major < 8
    ensures |EncodeHead(major, n)| == HeadLength(n)
  {
  }

  function EntrySizes(entries: seq<Entry>): nat {
    if entries == [] then 0 else |EncodeEntry(entries[0])| + EntrySizes(entries[1..])
  }

  lemma {:induction false} EncodedSize(entries: seq<Entry>)
    ensures |EncodeEntries(entries)| == EntrySizes(entries)
  {
    if entries != [] {
      EncodedSize(entries[1..]);
    }
  }

  lemma SixSizes(f1: Field, f2: Field, f3: Field, f4: Field, f5: Field, f6: Field)
    ensures |EncodeMap(Six(f1, f2, f3, f4, f5, f6))|
         == 7 + |EncodeField(f1)| + |EncodeField(f2)| + |EncodeField(f3)| + |EncodeField(f4)| + |EncodeField(f5)| + |EncodeField(f6)|
  {
    var e := Six(f1, f2, f3, f4, f5, f6);
    EncodedSize(e);
    SizesFrom(e, 0);
    SizesFrom(e, 1);
    SizesFrom(e, 2);
    SizesFrom(e, 3);
    SizesFrom(e, 4);
    SizesFrom(e, 5);
    assert e[0..] == e && e[6..] == [];
    EntrySize(e[0]);
    EntrySize(e[1]);
    EntrySize(e[2]);
    EntrySize(e[3]);
    EntrySize(e[4]);
    EntrySize(e[5]);
  }

  lemma EntrySize(e: Entry)
    requires e.key < 24
    ensures |EncodeEntry(e)| == 1 + |EncodeField(e.value)|
  {
    HeadSize(UNSIGNED, e.key);
  }

  lemma SizesFrom(e: seq<Entry>, j: nat)
    requires j < |e|
    ensures EntrySizes(e[j..]) == |EncodeEntry(e[j])| + EntrySizes(e[j + 1..])
  {
    assert e[j..][1..] == e[j + 1..];
  }

  lemma FieldSizes(t: bytes, i: nat, id: Option<bytes>)
    ensures |EncodeField(Text(t))| == StringLength(|t|) && |EncodeField(Bytes(t))| == StringLength(|t|)
    ensures |EncodeField(Int(i))| == HeadLength(i)
    ensures |EncodeField(IdField(id))| == IdFieldLength(id)
  {
    HeadSize(TEXT_STRING, |t|);
    HeadSize(BYTE_STRING, |t|);
    HeadSize(UNSIGNED, i);
    if id.Some? {
      HeadSize(TEXT_STRING, |id.value|);
    }
  }

  lemma FixedTexts(kind: RecordKind)
    ensures |FORMAT_VERSION| == 18 && |kind.AsStr()| == KindLength(kind)
  {
    FormatVersionIsText();
  }

  /** Ids of at most 128 bytes. */
  predicate ShortIds(c: Context) {
    |c.accountId| <= 128 && IdLength(c.vaultId) <= 128 && IdLength(c.itemId) <= 128
  }

  lemma AadSize(c: Context)
    requires EncodeAad(c).Ok?
    ensures |EncodeAad(c).value| == AadLength(c)
  {
    FixedTexts(c.kind);
    FieldSizes(FORMAT_VERSION, c.keyVersion, c.vaultId);
    FieldSizes(c.accountId, 0, c.itemId);
    FieldSizes(c.kind.AsStr(), 0, None);
    SixSizes(Text(FORMAT_VERSION), Text(c.accountId), IdField(c.vaultId), IdField(c.itemId), Text(c.kind.AsStr()), Int(c.keyVersion));
  }

  lemma EnvelopeSize(p: EnvelopeParts)
    ensures |EncodeMap(EnvelopeEntries(p))|
         == 7 + StringLength(18) + StringLength(KindLength(p.kind)) + HeadLength(p.keyVersion)
            + StringLength(|p.nonce|) + StringLength(|p.ciphertext|) + StringLength(|p.aad|)
  {
    FixedTexts(p.kind);
    FieldSizes(FORMAT_VERSION, p.keyVersion, None);
    FieldSizes(p.kind.AsStr(), 0, None);
    FieldSizes(p.nonce, 0, None);
    FieldSizes(p.ciphertext, 0, None);
    FieldSizes(p.aad, 0, None);
    SixSizes(Text(FORMAT_VERSION), Text(p.kind.AsStr()), Int(p.keyVersion), Bytes(p.nonce), Bytes(p.ciphertext), Bytes(p.aad));
  }

  /** Of otherwise valid input, sealing returns `Internal` if and only if the length that its id
      lengths, version and plaintext length give is over the limit of its kind; else that is the
      length of the envelope. */
  lemma InternalIffTooLong(aead: Aead, key: bytes, c: Context, plaintext: bytes, nonce: bytes)
    requires Lawful(aead) && |key| == KEY_LEN && |nonce| == NONCE_LEN
    requires EncodeAad(c).Ok? && PlaintextWithinLimit(c.kind, |plaintext|)
    ensures var sealed := SealEnvelope(aead, key, c, plaintext, nonce);
            if EnvelopeLength(c, |plaintext|) > EnvelopeLimit(c.kind) then sealed == Err(Internal)
            else sealed.Ok? && |sealed.value| == EnvelopeLength(c, |plaintext|)
  {
    AadSize(c);
    var aad := EncodeAad(c).value;
    EnvelopeSize(EnvelopeParts(c.kind, c.keyVersion, nonce, aead.seal(key, nonce, plaintext, aad), aad));
  }

  /** With ids of at most 128 bytes `Internal` is never reached, and the worker's bound is met, which is
      1 MiB, 1 KiB and a tag (`packages/crypto-worker/src/index.ts`). */
  lemma ShortIdsAlwaysFit(aead: Aead, key: bytes, c: Context, plaintext: bytes, nonce: bytes)
    requires Lawful(aead) && |key| == KEY_LEN && |nonce| == NONCE_LEN
    requires EncodeAad(c).Ok? && ShortIds(c) && PlaintextWithinLimit(c.kind, |plaintext|)
    ensures SealEnvelope(aead, key, c, plaintext, nonce).Ok?
    ensures |SealEnvelope(aead, key, c, plaintext, nonce).value| <= 1_049_616
  {
    InternalIffTooLong(aead, key, c, plaintext, nonce);
  }

  /** Ids that together are longer than the limit of the kind are too long. */
  lemma LongIdsAreInternal(aead: Aead, key: bytes, c: Context, plaintext: bytes, nonce: bytes)
    requires Lawful(aead) && |key| == KEY_LEN && |nonce| == NONCE_LEN
    requires EncodeAad(c).Ok? && PlaintextWithinLimit(c.kind, |plaintext|)
    requires EnvelopeLimit(c.kind) < |c.accountId| + IdLength(c.vaultId) + IdLength(c.itemId)
    ensures SealEnvelope(aead, key, c, plaintext, nonce) == Err(Internal)
  {
    InternalIffTooLong(aead, key, c, plaintext, nonce);
  }

  // Envelopes.

  predicate StorableParts(p: EnvelopeParts) {
    && p.keyVersion < TWO_TO_63
    && |p.nonce| == NONCE_LEN
    && TAG_LEN <= |p.ciphertext| < TWO_TO_63
    && |p.aad| < TWO_TO_63
  }

  lemma SixMakeParts(f1: Field, p: EnvelopeParts, kindText: bytes)
    requires ParseKind(kindText) == Some(p.kind) && |p.nonce| == NONCE_LEN && TAG_LEN <= |p.ciphertext|
    ensures PartsOf(Six(f1, Text(kindText), Int(p.keyVersion), Bytes(p.nonce), Bytes(p.ciphertext), Bytes(p.aad))) == Ok(p)
  {
    FindInSix(f1, Text(kindText), Int(p.keyVersion), Bytes(p.nonce), Bytes(p.ciphertext), Bytes(p.aad));
  }

  lemma DecodeInvertsEncodeParts(p: EnvelopeParts)
    requires StorableParts(p)
    ensures DecodeEnvelope(EncodeMap(EnvelopeEntries(p))) == Ok(p)
  {
    FormatVersionIsText();
    AsStrIsText(p.kind);
    ParseInvertsAsStr(p.kind);
    var f1, f2, f3 := Text(FORMAT_VERSION), Text(p.kind.AsStr()), Int(p.keyVersion);
    DecodeInvertsEncodeSix(f1, f2, f3, Bytes(p.nonce), Bytes(p.ciphertext), Bytes(p.aad));
    SixMakeParts(f1, p, p.kind.AsStr());
  }

  lemma EncodeInvertsDecodeParts(b: bytes)
    requires |b| < TWO_TO_63 && DecodeEnvelope(b).Ok?
    ensures EncodeMap(EnvelopeEntries(DecodeEnvelope(b).value)) == b
    ensures |DecodeEnvelope(b).value.aad| < TWO_TO_63
  {
    var entries := DecodeSixKeys(b).value;
    DecodeIsSound(b);
    SixEntries(entries);
    AsStrInvertsParse(TextAt(entries, 2).value);
    assert IsField(entries[5].value) && entries[5].value == Find(entries, 6).value;
    assert entries == EnvelopeEntries(DecodeEnvelope(b).value);
  }

  lemma AadFitsInMemory(c: Context)
    requires IsContext(c) && EncodeAad(c).Ok?
    ensures |EncodeAad(c).value| < TWO_TO_63
  {
    AadSize(c);
  }

  /** What a sealed envelope decodes to. */
  lemma SealedParts(aead: Aead, key: bytes, c: Context, plaintext: bytes, nonce: bytes)
    requires Lawful(aead) && IsContext(c) && |nonce| == NONCE_LEN && SealEnvelope(aead, key, c, plaintext, nonce).Ok?
    ensures var aad := EncodeAad(c).value;
            && DecodeEnvelope(SealEnvelope(aead, key, c, plaintext, nonce).value)
               == Ok(EnvelopeParts(c.kind, c.keyVersion, nonce, aead.seal(key, nonce, plaintext, aad), aad))
            && DecodeAad(aad) == Ok(c)
  {
    var aad := EncodeAad(c).value;
    AadFitsInMemory(c);
    DecodeInvertsEncodeAad(c);
    DecodeInvertsEncodeParts(EnvelopeParts(c.kind, c.keyVersion, nonce, aead.seal(key, nonce, plaintext, aad), aad));
  }

  /** Opening under the same key and context returns the plaintext. */
  lemma OpenInvertsSeal(aead: Aead, key: bytes, c: Context, plaintext: bytes, nonce: bytes)
    requires Lawful(aead) && IsContext(c) && |nonce| == NONCE_LEN && SealEnvelope(aead, key, c, plaintext, nonce).Ok?
    ensures OpenEnvelope(aead, key, c, SealEnvelope(aead, key, c, plaintext, nonce).value) == Ok(plaintext)
  {
    SealedParts(aead, key, c, plaintext, nonce);
  }

  /** Any other valid context is refused whatever the key, and whatever the AEAD would say. */
  lemma OtherContextIsRefused(
    aead: Aead, key: bytes, c: Context, plaintext: bytes, nonce: bytes, anyAead: Aead, anyKey: bytes, other: Context)
    requires Lawful(aead) && IsContext(c) && |nonce| == NONCE_LEN && SealEnvelope(aead, key, c, plaintext, nonce).Ok?
    requires IsContext(other) && other.Valid() && other != c && |anyKey| == KEY_LEN
    ensures OpenEnvelope(anyAead, anyKey, other, SealEnvelope(aead, key, c, plaintext, nonce).value) == Err(InvalidContext)
  {
    SealedParts(aead, key, c, plaintext, nonce);
  }

  /** Nothing opens under a context but the envelopes that carry exactly its kind, its
      version and its authenticated bytes, and the text then is what the AEAD opened. */
  lemma OpenedEnvelopesAreBound(aead: Aead, key: bytes, c: Context, envelope: bytes)
    requires |envelope| < TWO_TO_63 && OpenEnvelope(aead, key, c, envelope).Ok?
    ensures EncodeAad(c).Ok?
    ensures exists p: EnvelopeParts ::
              && p.kind == c.kind && p.keyVersion == c.keyVersion && p.aad == EncodeAad(c).value
              && envelope == EncodeMap(EnvelopeEntries(p))
              && aead.open(key, p.nonce, p.ciphertext, p.aad) == Some(OpenEnvelope(aead, key, c, envelope).value)
  {
    EncodeInvertsDecodeParts(envelope);
    var p := DecodeEnvelope(envelope).value;
    assert p.kind == c.kind && p.keyVersion == c.keyVersion && p.aad == EncodeAad(c).value;
  }

  /** A lawful AEAD exists: the hypothesis of these theorems can be met. */
  lemma LawfulAeadExists()
    ensures exists aead :: Lawful(aead)
  {
    var tag: bytes := seq(TAG_LEN, _ => 0);
    var aead := Aead((k: bytes, n: bytes, p: bytes, a: bytes) => p + tag,
                     (k: bytes, n: bytes, c: bytes, a: bytes) => if |c| < TAG_LEN then None else Some(c[..|c| - TAG_LEN]));
    forall k: bytes, n: bytes, p: bytes, a: bytes
      ensures |aead.seal(k, n, p, a)| == |p| + TAG_LEN && aead.open(k, n, aead.seal(k, n, p, a), a) == Some(p)
    {
      assert (p + tag)[..|p|] == p;
    }
    assert Lawful(aead);
  }
}
