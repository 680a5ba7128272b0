/** What sealing and opening an envelope answers for every input, in literal lengths. */
module EnvelopeAnswers {
  import opened Wrappers
  import opened Cbor
  import opened Utf8
  import opened CryptoErrors
  import opened StrictCbor
  import opened Envelope
  import opened EnvelopeProofs

  /** The plaintexts that an envelope of the kind holds: up to 1 MiB of an item or a manifest, or one key. */
  predicate Holds(kind: RecordKind, len: nat) {
    match kind
    case ItemPayload => 1 <= len <= 1_048_576
    case ExportManifest => 1 <= len <= 1_048_576
    case AccountWrap => len == 32
    case RecoveryWrap => len == 32
    case VaultWrap => len == 32
    case ItemWrap => len == 32
  }

  /** The longest envelope of the kind. */
  function LongestOf(kind: RecordKind): nat {
    match kind
    case ItemPayload => 1_049_616
    case ExportManifest => 1_049_616
    case _ => 65_536
  }

  /** The kinds that name a vault, an item, both or neither; every id given is non-empty, and so is the version. */
  predicate IsWellFormed(c: Context) {
    && c.accountId != [] && c.keyVersion > 0
    && match (c.kind, c.vaultId, c.itemId)
       case (AccountWrap, None, None) => true
       case (RecoveryWrap, None, None) => true
       case (ExportManifest, None, None) => true
       case (VaultWrap, Some(vault), None) => vault != []
       case (ItemWrap, Some(vault), Some(item)) => vault != [] && item != []
       case (ItemPayload, Some(vault), Some(item)) => vault != [] && item != []
       case _ => false
  }

  /** Sealing answers, for every context, key and plaintext: a malformed context or a version that CBOR
      cannot hold is `InvalidContext`; a key that is not 32 bytes or a plaintext the kind does not hold
      is `InvalidKeyLength`, and that is found first of the two; then the length decides. */
  lemma SealAnswers(aead: Aead, key: bytes, c: Context, plaintext: bytes, nonce: bytes)
    requires Lawful(aead) && |nonce| == 24
    ensures var sealed := SealEnvelope(aead, key, c, plaintext, nonce);
            if !IsWellFormed(c) then sealed == Err(InvalidContext)
            else if |key| != 32 || !Holds(c.kind, |plaintext|) then sealed == Err(InvalidKeyLength)
            else if c.keyVersion >= 0x8000_0000_0000_0000 then sealed == Err(InvalidContext)
            else if EnvelopeLength(c, |plaintext|) > LongestOf(c.kind) then sealed == Err(Internal)
            else sealed.Ok? && |sealed.value| == EnvelopeLength(c, |plaintext|)
  {
    assert c.Valid() <==> IsWellFormed(c);
    if c.Valid() && |key| == 32 && PlaintextWithinLimit(c.kind, |plaintext|) && c.keyVersion < TWO_TO_63 {
      InternalIffTooLong(aead, key, c, plaintext, nonce);
    }
  }

  /** With ids of at most 128 bytes exactly the plaintexts that the kind holds are sealed. */
  lemma SealsIffHeld(aead: Aead, key: bytes, c: Context, plaintext: bytes, nonce: bytes)
    requires Lawful(aead) && |key| == 32 && |nonce| == 24 && IsWellFormed(c) && c.keyVersion < 0x8000_0000_0000_0000
    requires |c.accountId| <= 128 && IdLength(c.vaultId) <= 128 && IdLength(c.itemId) <= 128
    ensures var sealed := SealEnvelope(aead, key, c, plaintext, nonce);
            if Holds(c.kind, |plaintext|) then sealed.Ok? && |sealed.value| <= 1_049_616 else sealed == Err(InvalidKeyLength)
  {
    SealAnswers(aead, key, c, plaintext, nonce);
    if Holds(c.kind, |plaintext|) {
      ShortIdsAlwaysFit(aead, key, c, plaintext, nonce);
    }
  }

  /** What the kind holds comes back from its envelope. */
  lemma HeldPlaintextsRoundTrip(aead: Aead, key: bytes, c: Context, plaintext: bytes, nonce: bytes)
    requires Lawful(aead) && |key| == 32 && |nonce| == 24
    requires IsContext(c) && IsWellFormed(c) && c.keyVersion < 0x8000_0000_0000_0000
    requires Holds(c.kind, |plaintext|) && EnvelopeLength(c, |plaintext|) <= LongestOf(c.kind)
    ensures SealEnvelope(aead, key, c, plaintext, nonce).Ok?
    ensures OpenEnvelope(aead, key, c, SealEnvelope(aead, key, c, plaintext, nonce).value) == Ok(plaintext)
  {
    SealAnswers(aead, key, c, plaintext, nonce);
    OpenInvertsSeal(aead, key, c, plaintext, nonce);
  }

  /** Under its own context an envelope opens as the AEAD says, whatever the key: a key that is not 32
      bytes is refused before, and a text the kind does not hold after. */
  lemma OpenAnswers(aead: Aead, key: bytes, c: Context, plaintext: bytes, nonce: bytes, other: bytes)
    requires Lawful(aead) && IsContext(c) && |nonce| == 24 && SealEnvelope(aead, key, c, plaintext, nonce).Ok?
    ensures var aad := EncodeAad(c).value;
            var text := aead.open(other, nonce, aead.seal(key, nonce, plaintext, aad), aad);
            var answer := OpenEnvelope(aead, other, c, SealEnvelope(aead, key, c, plaintext, nonce).value);
            if |other| != 32 then answer == Err(InvalidKeyLength)
            else if text.None? then answer == Err(AuthenticationFailed)
            else if !Holds(c.kind, |text.value|) then answer == Err(InvalidKeyLength)
            else answer == Ok(text.value)
  {
    SealedParts(aead, key, c, plaintext, nonce);
  }

  /** A malformed context opens nothing. */
  lemma MalformedOpensNothing(aead: Aead, key: bytes, c: Context, envelope: bytes)
    requires !IsWellFormed(c)
    ensures OpenEnvelope(aead, key, c, envelope) == Err(InvalidContext)
  {
  }

  lemma WellFormedIsValid(c: Context)
    ensures c.Valid() <==> IsWellFormed(c)
  {
  }

  lemma FoundContext(f1: Field, c: Context, kindText: bytes)
    requires ParseKind(kindText) == Some(c.kind)
    ensures ContextOf(Six(f1, Text(c.accountId), IdField(c.vaultId), IdField(c.itemId), Text(kindText), Int(c.keyVersion)))
         == if IsWellFormed(c) then Ok(c) else Err(InvalidContext)
  {
    FindInSix(f1, Text(c.accountId), IdField(c.vaultId), IdField(c.itemId), Text(kindText), Int(c.keyVersion));
    WellFormedIsValid(c);
    hide IsWellFormed, ParseKind, Context.Valid, Six;
  }

  /** Authenticated data of any typed context decodes to it if it is well formed, and is `InvalidContext` otherwise. */
  lemma AadAnswers(c: Context)
    requires IsContext(c) && c.keyVersion < 0x8000_0000_0000_0000
    ensures DecodeAad(EncodeMap(AadEntries(c))) == if IsWellFormed(c) then Ok(c) else Err(InvalidContext)
  {
    FormatVersionIsText();
    AsStrIsText(c.kind);
    ParseInvertsAsStr(c.kind);
    var f1, f2, f3, f4 := Text(FORMAT_VERSION), Text(c.accountId), IdField(c.vaultId), IdField(c.itemId);
    hide IsUtf8, IsWellFormed, ContextOf, DecodeSixKeys, EncodeMap, ParseKind, Six, FORMAT_VERSION, RecordKind.AsStr;
    DecodeInvertsEncodeSix(f1, f2, f3, f4, Text(c.kind.AsStr()), Int(c.keyVersion));
    FoundContext(f1, c, c.kind.AsStr());
  }

  lemma FoundParts(f1: Field, p: EnvelopeParts, kindText: bytes)
    requires ParseKind(kindText) == Some(p.kind)
    ensures PartsOf(Six(f1, Text(kindText), Int(p.keyVersion), Bytes(p.nonce), Bytes(p.ciphertext), Bytes(p.aad)))
         == if |p.nonce| != 24 then Err(InvalidNonce) else if |p.ciphertext| < 16 then Err(InvalidEncoding) else Ok(p)
  {
    FindInSix(f1, Text(kindText), Int(p.keyVersion), Bytes(p.nonce), Bytes(p.ciphertext), Bytes(p.aad));
    hide ParseKind, Six;
  }

  /** An envelope whose nonce is not 24 bytes, or whose ciphertext is shorter than a tag, is refused by that. */
  lemma PartsAnswer(p: EnvelopeParts)
    requires p.keyVersion < 0x8000_0000_0000_0000
    requires |p.nonce| < 0x8000_0000_0000_0000 && |p.ciphertext| < 0x8000_0000_0000_0000 && |p.aad| < 0x8000_0000_0000_0000
    ensures DecodeEnvelope(EncodeMap(EnvelopeEntries(p)))
         == if |p.nonce| != 24 then Err(InvalidNonce) else if |p.ciphertext| < 16 then Err(InvalidEncoding) else Ok(p)
  {
    FormatVersionIsText();
    AsStrIsText(p.kind);
    ParseInvertsAsStr(p.kind);
    var f1, f2, f3 := Text(FORMAT_VERSION), Text(p.kind.AsStr()), Int(p.keyVersion);
    hide IsUtf8, PartsOf, DecodeSixKeys, EncodeMap, ParseKind, Six, FORMAT_VERSION, RecordKind.AsStr;
    DecodeInvertsEncodeSix(f1, f2, f3, Bytes(p.nonce), Bytes(p.ciphertext), Bytes(p.aad));
    FoundParts(f1, p, p.kind.AsStr());
  }
}
