/** Contexts, their authenticated bytes, and envelopes (`crates/crypto-core/src/envelope.rs`). */
module Envelope {
  import opened Wrappers
  import opened Cbor
  import opened Utf8
  import opened CryptoErrors
  import opened StrictCbor
  import opened StrictMaps

  const KEY_LEN: nat := 32
  const NONCE_LEN: nat := 24
  const TAG_LEN: nat := 16
  const MAX_ITEM_PLAINTEXT_LEN: nat := 1024 * 1024
  const MAX_WRAPPED_KEY_LEN: nat := 64 * 1024

  const FORMAT_VERSION: bytes := Ascii("crypto-envelope/v1")

  datatype RecordKind = AccountWrap | RecoveryWrap | VaultWrap | ItemWrap | ItemPayload | ExportManifest
  {
    function AsStr(): bytes {
      match this
      case AccountWrap => Ascii("account-wrap")
      case RecoveryWrap => Ascii("recovery-wrap")
      case VaultWrap => Ascii("vault-wrap")
      case ItemWrap => Ascii("item-wrap")
      case ItemPayload => Ascii("item-payload")
      case ExportManifest => Ascii("export-manifest")
    }

    predicate ExpectsVault() { VaultWrap? || ItemWrap? || ItemPayload? }

    predicate ExpectsItem() { ItemWrap? || ItemPayload? }
  }

  function ParseKind(text: bytes): Option<RecordKind> {
    if text == Ascii("account-wrap") then Some(AccountWrap)
    else if text == Ascii("recovery-wrap") then Some(RecoveryWrap)
    else if text == Ascii("vault-wrap") then Some(VaultWrap)
    else if text == Ascii("item-wrap") then Some(ItemWrap)
    else if text == Ascii("item-payload") then Some(ItemPayload)
    else if text == Ascii("export-manifest") then Some(ExportManifest)
    else None
  }

  lemma AsStrIsText(kind: RecordKind)
    ensures 9 <= |kind.AsStr()| <= 15 && IsUtf8(kind.AsStr())
  {
    var text := kind.AsStr();
    assert forall j | 0 <= j < |text| :: text[j] <= 0x7F;
    AsciiIsUtf8(text);
  }

  lemma ParseInvertsAsStr(kind: RecordKind)
    ensures ParseKind(kind.AsStr()) == Some(kind)
  {
    assert Ascii("account-wrap")[0] == 'a' as int;
    assert Ascii("item-payload")[0] == 'i' as int;
  }

  lemma AsStrInvertsParse(text: bytes)
    ensures ParseKind(text).Some? ==> ParseKind(text).value.AsStr() == text
  {
  }

  datatype Context = Context(accountId: bytes, vaultId: Option<bytes>, itemId: Option<bytes>, kind: RecordKind, keyVersion: nat)
  {
    /** `Context::validate`; every failure is `InvalidContext`. */
    predicate Valid() {
      && accountId != []
      && (vaultId.Some? ==> vaultId.value != [])
      && (itemId.Some? ==> itemId.value != [])
      && vaultId.Some? == kind.ExpectsVault()
      && itemId.Some? == kind.ExpectsItem()
      && keyVersion != 0
    }
  }

  function IdLength(id: Option<bytes>): nat {
    if id.Some? then |id.value| else 0
  }

  /** What the Rust types guarantee: UTF-8 ids that fit in memory, and a `u64` version. */
  predicate IsContext(c: Context) {
    && IsUtf8(c.accountId)
    && (c.vaultId.Some? ==> IsUtf8(c.vaultId.value))
    && (c.itemId.Some? ==> IsUtf8(c.itemId.value))
    && |c.accountId| + IdLength(c.vaultId) + IdLength(c.itemId) < TWO_TO_63 / 2
    && c.keyVersion < TWO_TO_64
  }

  // Authenticated data.

  function IdField(id: Option<bytes>): Field {
    if id.Some? then Text(id.value) else Null
  }

  /** Six fields under the keys 1..6. */
  function Six(f1: Field, f2: Field, f3: Field, f4: Field, f5: Field, f6: Field): seq<Entry> {
    [Entry(1, f1), Entry(2, f2), Entry(3, f3), Entry(4, f4), Entry(5, f5), Entry(6, f6)]
  }

  function AadEntries(c: Context): seq<Entry> {
    Six(Text(FORMAT_VERSION), Text(c.accountId), IdField(c.vaultId), IdField(c.itemId), Text(c.kind.AsStr()), Int(c.keyVersion))
  }

  function EncodeAad(c: Context): Result<bytes, Error> {
    if !c.Valid() || c.keyVersion >= TWO_TO_63 then Err(InvalidContext) else Ok(EncodeMap(AadEntries(c)))
  }

  /** The steps `decode_aad` and `decode_envelope` share. */
  function DecodeSixKeys(b: bytes): Result<seq<Entry>, Error> {
    var decoded := Decode(b);
    if decoded.Err? then decoded
    else if RequireKeys(decoded.value, 6).Err? then Err(RequireKeys(decoded.value, 6).error)
    else if EncodeMap(decoded.value) != b then Err(NonCanonicalCbor)
    else if Find(decoded.value, 1) != Some(Text(FORMAT_VERSION)) then Err(UnsupportedVersion)
    else decoded
  }

  /** A record kind and a key version, at the keys the map puts them. */
  function KindAndVersionAt(entries: seq<Entry>, kindKey: nat, versionKey: nat): Result<(RecordKind, nat), Error> {
    var kind := TextAt(entries, kindKey);
    if kind.None? || ParseKind(kind.value).None? then Err(InvalidEncoding)
    else match Find(entries, versionKey)
      case Some(Int(i)) => if i < 0 then Err(InvalidContext) else Ok((ParseKind(kind.value).value, i))
      case _ => Err(InvalidEncoding)
  }

  predicate IsIdField(f: Option<Field>) {
    f.Some? && (f.value.Text? || f.value.Null?)
  }

  /** `decode_aad` after its map checks. */
  function ContextOf(entries: seq<Entry>): Result<Context, Error> {
    var meta := KindAndVersionAt(entries, 5, 6);
    if TextAt(entries, 2).None? then Err(InvalidEncoding)
    else if meta.Err? then Err(meta.error)
    else if !IsIdField(Find(entries, 3)) || !IsIdField(Find(entries, 4)) then Err(InvalidEncoding)
    else
      var c := Context(TextAt(entries, 2).value, TextAt(entries, 3), TextAt(entries, 4), meta.value.0, meta.value.1);
      if c.Valid() then Ok(c) else Err(InvalidContext)
  }

  function DecodeAad(b: bytes): Result<Context, Error> {
    var decoded := DecodeSixKeys(b);
    if decoded.Err? then Err(decoded.error) else ContextOf(decoded.value)
  }

  // Envelopes.

  datatype EnvelopeParts = EnvelopeParts(kind: RecordKind, keyVersion: nat, nonce: bytes, ciphertext: bytes, aad: bytes)

  function EnvelopeEntries(p: EnvelopeParts): seq<Entry> {
    Six(Text(FORMAT_VERSION), Text(p.kind.AsStr()), Int(p.keyVersion), Bytes(p.nonce), Bytes(p.ciphertext), Bytes(p.aad))
  }

  /** `decode_envelope` after its map checks. */
  function PartsOf(entries: seq<Entry>): Result<EnvelopeParts, Error> {
    var meta := KindAndVersionAt(entries, 2, 3);
    var nonce, ciphertext, aad := BytesAt(entries, 4), BytesAt(entries, 5), BytesAt(entries, 6);
    if meta.Err? then Err(meta.error)
    else if nonce.None? || ciphertext.None? || aad.None? then Err(InvalidEncoding)
    else if |nonce.value| != NONCE_LEN then Err(InvalidNonce)
    else if |ciphertext.value| < TAG_LEN then Err(InvalidEncoding)
    else Ok(EnvelopeParts(meta.value.0, meta.value.1, nonce.value, ciphertext.value, aad.value))
  }

  function DecodeEnvelope(b: bytes): Result<EnvelopeParts, Error> {
    var decoded := DecodeSixKeys(b);
    if decoded.Err? then Err(decoded.error) else PartsOf(decoded.value)
  }

  /** The AEAD, abstract: `seal` and `open` take key, nonce, text and associated data. */
  datatype Aead = Aead(seal: (bytes, bytes, bytes, bytes) -> bytes, open: (bytes, bytes, bytes, bytes) -> Option<bytes>)

  ghost predicate Lawful(aead: Aead) {
    forall k: bytes, n: bytes, p: bytes, a: bytes | |k| == KEY_LEN && |n| == NONCE_LEN ::
      && |aead.seal(k, n, p, a)| == |p| + TAG_LEN
      && aead.open(k, n, aead.seal(k, n, p, a), a) == Some(p)
  }

  predicate PlaintextWithinLimit(kind: RecordKind, len: nat) {
    if kind.ItemPayload? || kind.ExportManifest? then 0 < len <= MAX_ITEM_PLAINTEXT_LEN else len == KEY_LEN
  }

  function EnvelopeLimit(kind: RecordKind): nat {
    if kind.ItemPayload? || kind.ExportManifest? then MAX_ITEM_PLAINTEXT_LEN + TAG_LEN + 1024 else MAX_WRAPPED_KEY_LEN
  }

  /** `seal_envelope` with the nonce it drew. */
  function SealEnvelope(aead: Aead, key: bytes, c: Context, plaintext: bytes, nonce: bytes): Result<bytes, Error> {
    if !c.Valid() then Err(InvalidContext)
    else if |key| != KEY_LEN || !PlaintextWithinLimit(c.kind, |plaintext|) then Err(InvalidKeyLength)
    else if EncodeAad(c).Err? then Err(EncodeAad(c).error)
    else
      var aad := EncodeAad(c).value;
      var envelope := EncodeMap(EnvelopeEntries(EnvelopeParts(c.kind, c.keyVersion, nonce, aead.seal(key, nonce, plaintext, aad), aad)));
      if |envelope| > EnvelopeLimit(c.kind) then Err(Internal) else Ok(envelope)
  }

  /** `open_envelope`. */
  function OpenEnvelope(aead: Aead, key: bytes, expected: Context, envelope: bytes): Result<bytes, Error> {
    if !expected.Valid() then Err(InvalidContext)
    else if |key| != KEY_LEN then Err(InvalidKeyLength)
    else
      var parts := DecodeEnvelope(envelope);
      if parts.Err? then Err(parts.error)
      else if EncodeAad(expected).Err? then Err(EncodeAad(expected).error)
      else
        var embedded := DecodeAad(parts.value.aad);
        if embedded.Err? then Err(embedded.error)
        else if || parts.value.kind != embedded.value.kind
                || embedded.value != expected
                || embedded.value.keyVersion != parts.value.keyVersion then Err(InvalidContext)
        else if parts.value.aad != EncodeAad(expected).value then Err(InvalidContext)
        else
          var plaintext := aead.open(key, parts.value.nonce, parts.value.ciphertext, EncodeAad(expected).value);
          if plaintext.None? then Err(AuthenticationFailed)
          else if !PlaintextWithinLimit(expected.kind, |plaintext.value|) then Err(InvalidKeyLength)
          else Ok(plaintext.value)
  }
}
