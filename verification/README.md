# Verified model of the zero-knowledge password manager

This project models the parts of the system where several actors, several formats or
several interleaved tasks have to agree, and proves what they promise each other. It needs
nothing but Dafny 4.11: `dafny verify dfyconfig.toml` checks all of it.

| files | part of the system |
|---|---|
| `SyncProtocol` (modules `SyncModel`, `SyncLedger`, `SyncWorld`, `SyncInvariant`, `SyncPreservation`), `SyncTheorems`, `SyncAnswers`, `SyncRefusals`, `SyncOvertaking` | the sync protocol: one server, any number of clients with offline queues and cursor-driven pulls, and a network that loses, delays, reorders and repeats messages |
| `SyncFeed`, `SyncServing`, `SyncEngine`, `SyncReaders`, `Cursor` | the server's handlers, the client's engine and repository and the extension's loader as classes; convergence of their loops; the text of cursors |
| `Cbor`, `Utf8`, `Utf8Scalars`, `CryptoErrors`, `StrictCbor`, `StrictMaps`, `CborDecoder`, `StrictCborErrors` | deterministic CBOR (RFC 8949, sections 3 and 4.2.1) and the strict map codec |
| `Envelope`, `EnvelopeProofs`, `EnvelopeAnswers`, `Kdf`, `Calibration`, `WireBytes` | contexts, authenticated data and envelopes; KDF parameters, their codec and the calibration ladder |
| `WebVault`, `WebVaultTheorems`, `WebVaultAnswers`, `FillPolicy`, `FillPolicyTheorems`, `FillPolicyAnswers` | the web client's vault session and the extension's fill policy, over every interleaving at their `await`s |
| `SessionLineage`, `SessionTheorems`, `SessionAnswers`, `KeyBundles`, `KeyBundleTheorems` | login sessions and devices; the compare-and-swap on key bundles |
| `Admission`, `AdmissionTheorems`, `Csv` | the fixed-window limiter; the importers' CSV parser |

The state machines are functions from a state and an event to a state; a run is any list of
events, and an event that is not enabled changes nothing. Where the source updates an object,
a class with the same fields runs each transaction or each segment between two `await`s in
place, and its `ensures` ties the new fields to those functions. What those functions answer is stated
once more, in terms that name none of them, by the `...Answers` modules.

## Hypotheses

- One transaction of the server is one step. For two first writes of one item this is an
  assumption about PostgreSQL: `FOR UPDATE` (`apps/backend-rust/src/sync.rs:360`) locks nothing
  while the row does not exist. `publish_key_bundle` is not given this for its INSERT, which is
  a step of its own.
- Item writes commit in the order of their `sequence`: `nextval`
  (`apps/backend-rust/src/sync.rs:379`) is drawn before the commit. Sequence values may be lost.
- Drawn identifiers are fresh: mutation ids within an account, session and device ids, token
  hashes, request ids of capabilities.
- Slices and strings are shorter than 2^63 bytes. `minicbor` is modelled from RFC 8949: a
  reader that accepts every head width, and a writer that emits the shortest.
- The AEAD is a pair of functions with `open(k, n, seal(k, n, p, a), a) == p` and
  `|seal| == |p| + 16`; the nonce is an argument. `LawfulAeadExists` shows that this can be met.
- Cursors in the sync modules are the sequences they encode; `Cursor` shows that the text
  compares as the sequence does. Revisions and sequences are unbounded integers.
- Each clock reading is an argument. Only the limiter's interval theorems need it to be monotonic.
- The limiter's `u32` count wraps as in a build without overflow checks; a build with them panics at
  `apps/backend-rust/src/auth/admission.rs:52` instead.

## Findings

Where a comment of the source says otherwise, the model follows the code.

- `crates/crypto-core/src/envelope.rs:256-258` calls the size bound unreachable for valid input.
  It is reached exactly when the envelope's length, a function of the three ids' lengths, the key
  version and the plaintext's length, exceeds the kind's limit (`InternalIffTooLong`); with ids of
  at most 128 bytes it never does (`ShortIdsAlwaysFit`).
- `apps/extension/src/background.ts:178-181` says that unlocking again runs a full lock cycle, so
  that no offer survives into the new session. After an inactivity timeout the session is already
  locked, no cycle runs, and an offer of generation 1 is granted and filled in generation 2
  (`OfferSurvivesReunlock`, `OldOfferIsFilled`). A fill is of its offer's generation exactly when
  nothing timed out between the offer and the selection (`FillGenerationIff`).
- A save takes its base revision when the seal is answered (`apps/web/src/vault/vault-session.ts:280`).
  It is the revision cached when the edit began exactly when the item's entry was not rewritten to
  another one meanwhile (`BasedOnItsBeginningIff`). A refresh in between makes the save overwrite
  the newer revision without a conflict (`RefreshDuringSaveLosesAnUpdate`); a lock in between makes
  the base 0, which for a stored item ends in a recorded conflict (`SealedWhileLockedConflicts`).
- The generation counter of `VaultSession` guards both caches but not the marks of locally deleted
  items: a delete that was under way marks its item after the lock (`DeleteMarksAfterLock`). While
  the vault is locked the marks change exactly so, by an undo, or by a further lock, which clears them
  (`MarksWhileLocked`, and over whole runs `MarkedWhileLockedIff`).
- A cache entry survives a second unlock that no lock preceded, so items of two generations may
  be cached together (`SecondUnlockMixesGenerations`). They never are exactly when every unlock starts on an empty cache
  (`UnlockIsolatesIffEmpty`, `RunsAreIsolatedIff`).
- A session bound to a device after the device was revoked is refused but not revoked
  (`LateBindingOutlivesRevocation`). It resolves again exactly when a later binding gave it an
  unrevoked device and it is itself still live (`ResolvesAgainIff`).
- A client that pushes while it pulls, or pulls a vault twice at once, can refuse the page of an
  honest server (`InterleavedPushRefusesPage`, `OverlappingPullRefusesPage`): exactly when another
  task stored a later revision of the item after the page was answered (`RefusedIffOvertaken`).
- A bucket of the limiter admits its first `max` calls and no more exactly when it counts fewer than
  2^32, where its `u32` wraps (`BucketsAdmitTheirFirstMax`, `CounterWraps`).
- `decode_cursor` also reads decimal text with leading zeros, which `encode_cursor` never writes
  (`ForeignCursorOfZero`).

## Model

| member | source | states |
|---|---|---|
| SyncServing.SyncServer.EnsureVaultOwnership | apps/backend-rust/src/sync.rs:319-335 | an unclaimed vault goes to the caller, a claimed one is never taken; the answer is ownership |
| SyncServing.SyncServer.UpsertItem | apps/backend-rust/src/sync.rs:368-397 | the item has one row, moved to a fresh sequence; an update keeps its creation time |
| SyncServing.SyncServer.ApplyMutation | apps/backend-rust/src/sync.rs:205-292 | one transaction: a recorded outcome is replayed unchanged; ownership, the `baseRevision` check, the write or the conflict, with the rolled-back branches leaving the tables as they were |
| SyncServing.SyncServer.ListChanges | apps/backend-rust/src/sync.rs:425-439 | the first rows of the vault above the cursor in sequence order, tombstones included, up to the limit, and none left out below the last |
| SyncServing.SyncServer.GetChanges | apps/backend-rust/src/sync.rs:447-505 | 404 exactly for a caller who does not own the vault; otherwise such a page, with the last row's sequence or the caller's own cursor as next cursor |
| SyncAnswers.DeliveryWrites | apps/backend-rust/src/sync.rs:205-292 | in every run a delivery is accepted exactly for an id without outcome, a vault of the caller or of nobody, and the current revision as base; it then writes only its item: the mutation's content at the next revision, `updatedAt` its time, and `createdAt` its time only if the item is new |
| SyncAnswers.DeliveryRefuses | apps/backend-rust/src/sync.rs:223-268 | any other delivery replays the recorded reply, answers 404 or 400 and changes nothing, or records a 409 with the current record |
| SyncAnswers.CreationTimeIsForever | apps/backend-rust/src/sync.rs:379-388 | over every continuation an item's `createdAt` never changes |
| SyncAnswers.StampsAreDeliveries | apps/backend-rust/src/sync.rs:368-397 | in every run an item's `createdAt` is the time of the accepted delivery that first wrote it, and its `updatedAt` that of the last |
| SyncAnswers.OnlyOwnersAreAnswered | apps/backend-rust/src/sync.rs:447-505 | a feed request is answered exactly for the owner of its vault, with at most 100 rows |
| SyncLedger.TransactKeepsInv | apps/backend-rust/src/sync.rs:205-292 | every transaction keeps: row and outcomes agree with the item's log of accepted writes, revision k+1 made from `baseRevision` k, sequences unique and below the counter |
| SyncLedger.AcceptedAtMostOnce | apps/backend-rust/src/sync.rs:214-231 | one (account, mutationId) makes at most one accepted write in all logs |
| SyncPreservation.StepKeepsInv | packages/sdk/src/sync-state-machine.ts:99-210 | every step of every client, the server and the network keeps the protocol invariant, and only extends what is recorded |
| SyncTheorems.RunKeepsInv | packages/sdk/src/sync-state-machine.ts:99-210 | the invariant holds after every run from empty tables and clients |
| SyncTheorems.LaterExtends | apps/backend-rust/src/sync.rs:399-419 | what is recorded after a run stays recorded after every continuation |
| SyncTheorems.ReplicaExactness | packages/sdk/src/sync-state-machine.ts:161-210 | in every reachable state each item at or below a client's stored cursor is held by it as exactly the server's current record |
| SyncTheorems.LocalRecordsWereServed | packages/sdk/src/repository.ts:57-73 | every local record is the record of a recorded 201, and not ahead of the server's row |
| SyncTheorems.RevisionHistory | apps/backend-rust/src/sync.rs:238-292 | the recorded 201s of an item carry 1..r exactly once each, the one at k for the mutation issued with base k-1 and with its content |
| SyncTheorems.RowIsLastRevision | apps/backend-rust/src/sync.rs:270-291 | the current row is the record in the last revision's 201 |
| SyncTheorems.RepliesAreForever | apps/backend-rust/src/sync.rs:223-231 | a recorded reply never changes, and every later delivery of its id gets it and changes nothing |
| SyncTheorems.EditDurability | packages/sdk/src/sync-state-machine.ts:73-139 | an edit that was enqueued and not withdrawn is queued, or the server holds a 201 for its id that carries it |
| SyncAnswers.EditsAreOwed | packages/sdk/src/sync-state-machine.ts:73-75 | an enqueued edit is queued dirty and owed from then on; a withdrawn one is neither |
| SyncAnswers.RefusedPushIsDirty | packages/sdk/src/sync-state-machine.ts:118-124 | a push refused without a recorded reply leaves its entry dirty |
| SyncTheorems.EditsApplyAtMostOnce | apps/backend-rust/src/sync.rs:218-231 | over any run with lost and repeated messages an edit changes the server at most once |
| SyncTheorems.VaultCheckAlwaysPasses | packages/sdk/src/sync-state-machine.ts:181-186 | no page of this server fails the vault check |
| SyncAnswers.PullStarts | packages/sdk/src/sync-state-machine.ts:161-164 | a pull starts from the cursor stored for its vault |
| SyncAnswers.PullAsksFromItsCursor | packages/sdk/src/sync-state-machine.ts:165-168 | and asks the server from there |
| SyncAnswers.CommitStoresTheCursor | packages/sdk/src/sync-state-machine.ts:201-207 | an applied page stores its next cursor for the pulled vault and nothing else; the pull goes on from it if the page had records and moved it and pages are left |
| SyncAnswers.CursorsMoveExactly | packages/sdk/src/sync-state-machine.ts:201-203 | no other step ever touches a cursor |
| SyncAnswers.AfterPageLeaves | packages/sdk/src/sync-state-machine.ts:172-207 | the protocol's steps for one page, run through, leave the items, the cursor and the next request that `PullPage` leaves |
| SyncAnswers.AfterPageRefused | packages/sdk/src/sync-state-machine.ts:196-200 | if a record is refused they end the pull there, with the records before it stored and the cursors as they were |
| SyncOvertaking.PullStoresACursor | packages/sdk/src/sync-state-machine.ts:161-210 | a run from empty tables that ends with a stored cursor and the row at it held exactly |
| SyncRefusals.PagesAreRefusedOnlyByRegression | packages/sdk/src/repository.ts:57-73 | in every reachable state a page's record is refused if and only if the client holds a later revision: never as `revision-mismatch` |
| SyncRefusals.RepliesAreRefusedOnlyByRegression | packages/sdk/src/sync-state-machine.ts:103-107 | the same of the record of a 201, first or replayed |
| SyncRefusals.PageWasAnswered | packages/sdk/src/sync-state-machine.ts:165-172 | every page that is being applied is the server's answer, at an earlier instant of the run, to the request the pull has been waiting on since |
| SyncRefusals.RefusedIffOvertaken | packages/sdk/src/sync-state-machine.ts:172-200 | over every run a record ends its pull if and only if, after the server answered with the page, another task of the client stored a later revision of the item |
| SyncRefusals.HonestServerIsNeverRefused | packages/sdk/src/sync-state-machine.ts:172-200 | so a client that runs nothing beside a pull never has a record of a page refused, whatever its earlier pushes stored |
| SyncOvertaking.InterleavedPushRefusesPage | packages/sdk/src/repository.ts:57-73 | a run from empty tables in which a push confirmed after the page's answer makes its record refused, with no cursor stored |
| SyncOvertaking.OverlappingPullRefusesPage | packages/sdk/src/repository.ts:57-73 | a run from empty tables in which a second pull of the vault does |
| SyncEngine.InMemoryLocalRepository.PutItem | packages/sdk/src/repository.ts:156-160 | stores exactly when the record does not regress and does not differ at the same revision |
| SyncAnswers.PutPassesIff | packages/sdk/src/repository.ts:57-73 | a record is stored exactly if the item is new, the revision later, or nothing differs at the same one |
| SyncEngine.Engine.EnqueueEdit | packages/sdk/src/sync-state-machine.ts:73-75 | the mutation is queued dirty with no attempts |
| SyncEngine.Engine.PushOne | packages/sdk/src/sync-state-machine.ts:99-139 | for each fate of request and response: the server ran at most the one transaction, and queue, items and outcome are those of 201, 409, HTTP error, network error or refused record |
| SyncEngine.AfterPushLeaves | packages/sdk/src/sync-state-machine.ts:99-139 | the protocol's push steps, run through, leave exactly what `PushOne` leaves |
| SyncEngine.Engine.ResolveConflict | packages/sdk/src/sync-state-machine.ts:147-150 | the old entry is replaced by the resolution, queued dirty |
| SyncEngine.Engine.PushAll | packages/sdk/src/sync-state-machine.ts:83-93 | the due entries are tried in order, each with `PushOne`'s effect on what the tries before it left, and tables, items and queue are what those tries leave; the first try that throws ends the call without results, otherwise there is one result for each due entry; no queued mutation is altered |
| SyncEngine.TriesLeave | packages/sdk/src/sync-state-machine.ts:83-139 | after any number of tries each tried entry is still what the reply to its own try made of it, gone or queued, and every other entry is untouched |
| SyncEngine.DueEntriesAre | packages/sdk/src/sync-state-machine.ts:85-89 | the entries tried are those listed that are not in conflict and not in an open backoff window, in the order listed |
| SyncEngine.DelaysDouble | packages/sdk/src/sync-state-machine.ts:37-40 | the first delay is the base, each later one twice the one before, and none above the maximum |
| SyncEngine.Engine.ApplyPage | packages/sdk/src/sync-state-machine.ts:172-195 | every record of an honest page is stored, and the client is then exact up to the page's next cursor |
| SyncEngine.Engine.PullPage | packages/sdk/src/sync-state-machine.ts:165-207 | one turn: the cursor advances only with the page applied, by min(100, rows left) rows |
| SyncEngine.Engine.Pull | packages/sdk/src/sync-state-machine.ts:161-210 | terminates; with n rows above the cursor applies min(maxPages, ceil(n/100)+1) pages and min(n, 100·maxPages) rows, and if n <= 100·maxPages the local vault equals the server's |
| SyncFeed.PageTakesRows | apps/backend-rust/src/sync.rs:425-439 | a page takes min(limit, n) of the n rows above the cursor and leaves the rest above its own |
| SyncReaders.ReachableClientsMayPull | packages/sdk/src/sync-state-machine.ts:161-162 | every client reachable in the protocol meets the preconditions of `Pull` |
| SyncReaders.ExtensionVaultManager.LoadPage | apps/extension/src/vault-manager.ts:228-250 | after a page the entries are exactly the live, openable rows up to its cursor |
| SyncReaders.ExtensionVaultManager.LoadAllItems | apps/extension/src/vault-manager.ts:206-263 | terminates with exactly the non-deleted rows that open, at their revisions; a vault that does not exist is empty |
| Cursor.DecodeInvertsEncodeCursor | apps/backend-rust/src/sync.rs:62-80 | a cursor the server wrote is read back as its sequence |
| Cursor.CursorsAreInjective | apps/backend-rust/src/sync.rs:62-64 | cursor texts are equal exactly when the sequences are |
| Cursor.ForeignCursorsHaveLeadingZeros | apps/backend-rust/src/sync.rs:68-80 | a cursor that is read is one the server writes if and only if its decimal text has no leading zero |
| Cursor.ForeignCursorOfZero | apps/backend-rust/src/sync.rs:68-80 | one that is not: "MDA" is read as 0, which is written "MA" |
| Cbor.ShortestIsEncoded | crates/crypto-core/src/canon.rs:13-15 | the writer's head is the one permitted head than which none is shorter |
| Cbor.KeyOrderIsBytewise | crates/crypto-core/src/canon.rs:106-110 | numeric key order is the bytewise order of the encoded keys |
| Utf8Scalars.EncodedIsUtf8 | crates/crypto-core/src/canon.rs:190-193 | the UTF-8 encoding of any Unicode scalar values is accepted as text |
| Utf8Scalars.Utf8IsEncoded | crates/crypto-core/src/canon.rs:190-193 | and whatever is accepted as text is such an encoding |
| WireBytes.ShortFieldBytes | crates/crypto-core/src/canon.rs:214-233 | the first byte of every type of field on the wire |
| WireBytes.MapBytes | crates/crypto-core/src/canon.rs:214-233 | a contract map begins with 0xA0 plus its number of entries, then each key and its field |
| StrictCbor.DecodeInvertsEncode | crates/crypto-core/src/canon.rs:83-141 | decoding and the re-encoding check accept and invert every encoded strict map |
| StrictCbor.DecodeIsSound | crates/crypto-core/src/canon.rs:83-112 | what decodes has at most 16 entries, ascending keys below 2^63, UTF-8 text and int64 values |
| StrictCbor.AcceptanceCharacterisation | crates/crypto-core/src/canon.rs:83-141 | a byte string is accepted with given entries if and only if they are a strict map and it is their definite-length map with every head shortest and nothing after |
| StrictCbor.EncodingsArePrefixFree | crates/crypto-core/src/canon.rs:103-105 | no accepted encoding is a proper prefix of another |
| StrictCbor.AcceptedKeysAscendBytewise | crates/crypto-core/src/canon.rs:106-110 | accepted keys ascend in the order of section 4.2.1 of RFC 8949 |
| CborDecoder.Decoder.MapLength | crates/crypto-core/src/canon.rs:85-95 | the map head: its length or the error, with the position behind the head |
| CborDecoder.Decoder.Key | crates/crypto-core/src/canon.rs:171-188 | reads a key as the specification does and leaves the position behind it |
| CborDecoder.Decoder.Value | crates/crypto-core/src/canon.rs:190-212 | reads a value as the specification does and leaves the position behind it |
| CborDecoder.Decoder.Entries | crates/crypto-core/src/canon.rs:97-102 | the loop over the entries reads what the recursive specification reads |
| CborDecoder.KeysAscend | crates/crypto-core/src/canon.rs:106-110 | the check of neighbouring pairs decides ascent of the whole list |
| CborDecoder.DecodeMap | crates/crypto-core/src/canon.rs:83-112 | the moving decoder returns, error for error, what the specification returns |
| CborDecoder.EncodeMapInOrder | crates/crypto-core/src/canon.rs:214-233 | the loop writes the specified encoding in the order given |
| StrictCborErrors.TrailingBytesAreInvalid | crates/crypto-core/src/canon.rs:103-105 | any bytes after a map that decodes make the error `InvalidEncoding` |
| StrictCborErrors.UnorderedKeysAreNotCanonical | crates/crypto-core/src/canon.rs:106-110 | entries out of order or with a repeated key are `NonCanonicalCbor` |
| StrictCborErrors.TooManyEntriesAreUnknown | crates/crypto-core/src/canon.rs:90-95 | more than 16 entries are `UnknownField`, whatever follows the head |
| StrictCborErrors.FirstBadEntryDecides | crates/crypto-core/src/canon.rs:97-102 | the first entry that cannot be read decides the error |
| StrictCborErrors.NegativeKeyIsUnknown | crates/crypto-core/src/canon.rs:182-183 | a negative key at any place is `UnknownField` |
| StrictCborErrors.TagFloatOrIndefiniteIsNotCanonical | crates/crypto-core/src/canon.rs:207-208 | a tag, a float or an indefinite-length string as a value is `NonCanonicalCbor` |
| StrictCborErrors.FirstByteOfValue | crates/crypto-core/src/canon.rs:190-212 | the error, by its literal value, that the first byte of a value decides |
| StrictCborErrors.FirstByteOfKey | crates/crypto-core/src/canon.rs:171-188 | and that of a key |
| StrictCborErrors.FirstByteOfMap | crates/crypto-core/src/canon.rs:83-95 | and that of the whole input: an indefinite map, no map, or too long a one |
| StrictMaps.KeysInPlace | crates/crypto-core/src/canon.rs:117-129 | a strict map that passes `require_keys(1..n)` has exactly n entries, key k at index k-1 |
| StrictMaps.NumberedIsFound | crates/crypto-core/src/canon.rs:159-168 | a list numbered 1..n passes `require_keys` and every lookup finds its field |
| Envelope.ParseInvertsAsStr | crates/crypto-core/src/envelope.rs:32-55 | parsing a kind's text gives the kind |
| Envelope.AsStrInvertsParse | crates/crypto-core/src/envelope.rs:45-55 | corollary of the row above: a text that parses is its kind's text |
| EnvelopeProofs.DecodeInvertsEncodeAad | crates/crypto-core/src/envelope.rs:104-159 | decoding inverts encoding on all valid contexts |
| EnvelopeProofs.EncodeInvertsDecodeAad | crates/crypto-core/src/envelope.rs:128-159 | bytes that decode to a context are the bytes it encodes to |
| EnvelopeProofs.AadIsInjective | crates/crypto-core/src/envelope.rs:104-125 | distinct contexts have distinct authenticated data |
| EnvelopeProofs.ByteComparisonIsImplied | crates/crypto-core/src/envelope.rs:298-306 | after the context comparison the byte comparison cannot fail |
| EnvelopeProofs.InternalIffTooLong | crates/crypto-core/src/envelope.rs:232-272 | for valid input sealing is `Internal` if and only if the length computed from the ids' lengths, the key version and the plaintext's length exceeds the kind's limit; otherwise that is the length of the envelope |
| EnvelopeProofs.ShortIdsAlwaysFit | crates/crypto-core/src/envelope.rs:232-272 | so with ids of at most 128 bytes sealing never returns `Internal`, and the envelope fits the worker's bound |
| EnvelopeProofs.LongIdsAreInternal | crates/crypto-core/src/envelope.rs:255-270 | so ids whose lengths together exceed the limit reach `Internal`, whichever of them is long |
| EnvelopeAnswers.SealAnswers | crates/crypto-core/src/envelope.rs:232-272 | what sealing answers for every context, key and plaintext, in literal lengths: which error is found first, or an envelope of the computed length |
| EnvelopeAnswers.SealsIffHeld | crates/crypto-core/src/envelope.rs:211-221 | with ids of at most 128 bytes exactly 1 to 1048576 bytes of an item or manifest and exactly 32 bytes of a key are sealed; anything else is `InvalidKeyLength` |
| EnvelopeAnswers.HeldPlaintextsRoundTrip | crates/crypto-core/src/envelope.rs:281-315 | and every such plaintext comes back |
| EnvelopeAnswers.OpenAnswers | crates/crypto-core/src/envelope.rs:281-315 | under its own context an envelope opens as the AEAD says, for every key; a key or a text of a wrong length is `InvalidKeyLength` |
| EnvelopeAnswers.AadAnswers | crates/crypto-core/src/envelope.rs:104-159 | authenticated data of any typed context decodes to it if it is well formed, and is `InvalidContext` otherwise |
| EnvelopeAnswers.PartsAnswer | crates/crypto-core/src/envelope.rs:182-209 | a nonce that is not 24 bytes is `InvalidNonce`, a ciphertext below 16 `InvalidEncoding`; anything else reads back |
| EnvelopeProofs.DecodeInvertsEncodeParts | crates/crypto-core/src/envelope.rs:182-209 | decoding inverts encoding of envelope parts |
| EnvelopeProofs.EncodeInvertsDecodeParts | crates/crypto-core/src/envelope.rs:182-209 | bytes that decode to parts are the bytes the parts encode to |
| EnvelopeProofs.OpenInvertsSeal | crates/crypto-core/src/envelope.rs:281-315 | opening a sealed envelope under its key and context returns the plaintext |
| EnvelopeProofs.OtherContextIsRefused | crates/crypto-core/src/envelope.rs:293-306 | under any other valid context it is `InvalidContext`, for every 32-byte key and whatever the AEAD would answer |
| EnvelopeProofs.OpenedEnvelopesAreBound | crates/crypto-core/src/envelope.rs:281-315 | whatever opens carries exactly the caller's kind, version and authenticated data, and the text is what the AEAD opened under them |
| KdfParameters.DecodeInvertsEncodeParams | crates/crypto-core/src/kdf.rs:133-183 | stored parameters read back if and only if a quarter of the reported memory admits them; otherwise `KdfResourceLimit` |
| KdfParameters.EncodeInvertsDecodeParams | crates/crypto-core/src/kdf.rs:157-183 | what decodes meets every bound and the cap, and has one encoding |
| WireBytes.StoredParamsAnswer | crates/crypto-core/src/kdf.rs:100-108 | in literal bounds: stored parameters below a minimum or above 32 bits are invalid, above a quarter of the reported memory refused, and otherwise read back |
| WireBytes.ParamFields | crates/crypto-core/src/kdf.rs:133-155 | the seven stored fields |
| Calibration.MedianIsCentral | crates/crypto-core/src/kdf.rs:356-364 | the median is a sample with three samples no larger and three no smaller |
| Calibration.MedianDeriveMs | crates/crypto-core/src/kdf.rs:349-365 | the sampling loop returns that median |
| Calibration.LargestPowerIsLargest | crates/crypto-core/src/kdf.rs:307-317 | a power of two p with p <= cap < 2p |
| Calibration.DoublingFits | crates/crypto-core/src/kdf.rs:294-297 | the guard stops the doubling exactly before it would leave a `u32` |
| Calibration.Climb | crates/crypto-core/src/kdf.rs:282-298 | the inner loop returns the first 3·2^k whose median is in the window, or none stops there |
| Calibration.Descend | crates/crypto-core/src/kdf.rs:280-304 | the outer loop halves the memory from the largest rung to the minimum and returns the first success |
| Calibration.Calibrate | crates/crypto-core/src/kdf.rs:260-305 | for any readings it terminates; a result is the ladder's first candidate in the window; `KdfResourceLimit` if and only if every rung down to the minimum is exhausted; the other error if and only if the arguments are invalid |
| Calibration.CalibrateForSetup | crates/crypto-core/src/kdf.rs:332-347 | the same for 500-1000 ms and a quarter of the reported memory |
| WebVaultSession.VaultSession.UnlockAnswered | apps/web/src/vault/vault-session.ts:77-93 | the answer sets session and bundle, whatever happened meanwhile, and starts a load that captures them |
| WebVaultSession.VaultSession.ContinueRecords | apps/web/src/vault/vault-session.ts:124-136 | the record loop up to its next `await`: revisions and tombstones of a current capture only |
| WebVaultSession.VaultSession.RecordAnswered | apps/web/src/vault/vault-session.ts:134-146 | an opened record is cached under a current capture; a failed one is skipped |
| WebVaultSession.VaultSession.ContinueQueue | apps/web/src/vault/vault-session.ts:160-171 | the overlay loop up to its next `await`: conflicts and other vaults are skipped |
| WebVaultSession.VaultSession.QueuedAnswered | apps/web/src/vault/vault-session.ts:171-181 | an opened queued edit is cached under a current capture and no longer counts as deleted |
| WebVaultSession.VaultSession.StartLock | apps/web/src/vault/vault-session.ts:187-206 | a locked vault locks again at once, an unlocked one first awaits the worker |
| WebVaultSession.VaultSession.LockAnswered | apps/web/src/vault/vault-session.ts:190-206 | the `finally` block: next generation, no session, empty caches, also when the worker threw |
| WebVaultSession.VaultSession.StartEdit | apps/web/src/vault/vault-session.ts:268-275 | a locked vault, invalid data or an unknown item refuses; otherwise the capture is taken |
| WebVaultSession.VaultSession.SealAnswered | apps/web/src/vault/vault-session.ts:275-284 | the mutation goes to the captured vault, on the revision cached at that instant or 0; a resolution on the conflict's revision |
| WebVaultSession.VaultSession.EnqueueAnswered | apps/web/src/vault/vault-session.ts:285-291 | a save or resolution is cached under a current capture only; a delete always marks |
| WebVaultAnswers.UnlockLoads | apps/web/src/vault/vault-session.ts:75-111 | an unlock that the worker answers opens the vault under a generation of its own and loads |
| WebVaultAnswers.LoadRunsThrough | apps/web/src/vault/vault-session.ts:113-182 | from every reachable state the segments of a load, run through, are one pass over the records and one over the queue, each entry with its own effect on texts, revisions and deletion marks |
| WebVaultAnswers.EditRunsThrough | apps/web/src/vault/vault-session.ts:260-291 | from every reachable state an accepted edit that runs through enqueues its mutation, on the conflict's revision or the cached one, and is then seen in the vault; a refused one does nothing |
| WebVaultAnswers.EditEnds | apps/web/src/vault/vault-session.ts:285-291 | whatever came between, a delete marks its item under any generation, and a save or resolution is cached exactly under a current capture |
| WebVaultAnswers.ResolutionDequeuesFirst | apps/web/src/vault/vault-session.ts:384-410 | a resolution enqueues nothing until the entry in conflict is removed |
| WebVaultAnswers.FailuresEnd | apps/web/src/vault/vault-session.ts:187-291 | a call that fails ends its method and touches neither vault nor queue |
| WebVaultAnswers.UndoUnmarks | apps/web/src/vault/vault-session.ts:323-329 | an undo unmarks its item |
| WebVaultAnswers.LockLeavesNothing | apps/web/src/vault/vault-session.ts:187-206 | a completed lock leaves nothing, in the next generation |
| WebVaultTheorems.LockedMeansEmpty | apps/web/src/vault/vault-session.ts:187-206 | in every state of every interleaving a locked vault has empty item and revision caches |
| WebVaultTheorems.LockedOutForever | apps/web/src/vault/vault-session.ts:51-59 | whatever had captured its generation when a lock completed never writes a cache again, also after later unlocks |
| WebVaultTheorems.EditsReachTheQueue | apps/web/src/vault/vault-session.ts:260-291 | through any run, locked or not, an edit whose worker and repository calls succeed enqueues exactly one mutation, once: with the worker's ciphertext and id, for the captured vault and its item |
| WebVaultTheorems.BasedOnItsBeginningIff | apps/web/src/vault/vault-session.ts:275-284 | the mutation's base is the revision cached when the edit began if and only if the last rewrite of the item's entry before the seal's answer, if there was one, wrote that revision |
| WebVaultTheorems.RefreshDuringSaveLosesAnUpdate | apps/web/src/vault/vault-session.ts:275-285 | a run: a save made on one revision and overtaken by a refresh is based on the newer revision, and the server applies it over that without a conflict |
| WebVaultTheorems.SealedWhileLockedConflicts | apps/web/src/vault/vault-session.ts:276-285 | a save sealed while locked has base 0 and is answered by a conflict for a stored item, which stays as it was |
| WebVaultTheorems.CachesHoldWhatWasTold | apps/web/src/vault/vault-session.ts:113-182 | over every run cached revisions and texts are ones listed, opened or entered for that item, and every enqueued mutation is based on a revision told for its item, or on none |
| WebVaultTheorems.UnlockIsolatesIffEmpty | apps/web/src/vault/vault-session.ts:75-93 | the single step of the next row: starting an unlock leaves no item of an older generation if and only if nothing was cached |
| WebVaultTheorems.RunsAreIsolatedIff | apps/web/src/vault/vault-session.ts:51-59 | in a run no item of one generation is ever held in another if and only if every unlock of it starts so |
| WebVaultTheorems.SecondUnlockMixesGenerations | apps/web/src/vault/vault-session.ts:75-93 | a run in which unlocking an open vault leaves an item of generation 1 cached in generation 2 |
| WebVaultTheorems.PendingUnlockOpensAfterLock | apps/web/src/vault/vault-session.ts:75-93 | a lock that completes while an unlock awaits the worker does not win |
| WebVaultTheorems.MarksWhileLocked | apps/web/src/vault/vault-session.ts:187-329 | the single step of the next row: while locked the deletion marks change if and only if a delete of an unmarked item ends, an undo of a marked one does, or a further lock completes and some item is marked |
| WebVaultTheorems.MarkedWhileLockedIff | apps/web/src/vault/vault-session.ts:187-329 | over every run that leaves the vault locked an item is marked at the end if and only if, of the deletes and undos of it that ended and the locks that completed, the last was a delete, or it was marked and there was none |
| WebVaultTheorems.DeleteMarksAfterLock | apps/web/src/vault/vault-session.ts:311-315 | a run in which a delete under way marks its item after the lock |
| FillPolicyObjects.SessionStateMachine.Lock | packages/extension-adapters/src/session-state.ts:52-57 | every lock is a new generation and is inactive |
| FillPolicyObjects.SessionStateMachine.MarkUnlocked | packages/extension-adapters/src/session-state.ts:65-69 | activates the current generation once |
| FillPolicyObjects.SessionStateMachine.NoteTrustedPopupActivity | packages/extension-adapters/src/session-state.ts:72-74 | extends the deadline of an active session only |
| FillPolicyObjects.SessionStateMachine.EnsureActive | packages/extension-adapters/src/session-state.ts:77-81 | locks exactly when an active session's deadline has passed |
| FillPolicyObjects.FillCapabilityStore.Grant | packages/extension-adapters/src/capability.ts:60-65 | stores the binding and the time under the drawn id |
| FillPolicyObjects.FillCapabilityStore.Consume | packages/extension-adapters/src/capability.ts:69-82 | accepts exactly an unexpired capability with equal binding, and spends it whatever the answer |
| FillPolicyObjects.BackgroundPolicy.LockAll | apps/extension/src/background.ts:89-101 | next generation, no capability, no offer |
| FillPolicyObjects.BackgroundPolicy.HandleContentMessage | apps/extension/src/background.ts:103-133 | an offer only for an active session, a matching page, an allowed decision and a known document; a cancel only from its own tab |
| FillPolicyObjects.BackgroundPolicy.HandlePopupMessage | apps/extension/src/background.ts:135-213 | the first segment of each popup message after the deadline check |
| FillPolicyObjects.BackgroundPolicy.FreshnessAnswered | apps/extension/src/background.ts:215-228 | grants only if fresh, active, and for the offer still pending |
| FillPolicyObjects.BackgroundPolicy.TabAnswered | apps/extension/src/background.ts:279-295 | goes on only in the same active generation, on the offer's tab and origin, with its capability accepted and spent |
| FillPolicyObjects.BackgroundPolicy.FieldsAnswered | apps/extension/src/background.ts:295-307 | sends to the offer's document only in the generation of the selection |
| FillPolicyObjects.BackgroundPolicy.SendAnswered | apps/extension/src/background.ts:308-316 | the offer ends; a lock during the send locks everything again |
| FillPolicyTheorems.ActiveGenerationStaysActive | packages/extension-adapters/src/session-state.ts:52-81 | over every run generations never go back, and one that has been active and is current is active |
| FillPolicyTheorems.FillsAreAuthorizedOnce | apps/extension/src/background.ts:271-317 | in every run each fill was authorized by an earlier grant with equal generation, tab, document, origin and form-action origin, consumed at most 30 s after it, and no grant authorizes two |
| FillPolicyTheorems.FillsGoWhereTheyWereAsked | apps/extension/src/background.ts:103-133 | in every run a fill goes only to a document whose own request was answered with an offer in an active session, of that tab, origin and form-action origin, with an item the decision on it named, and in no generation before the offer's |
| FillPolicyTheorems.FillGenerationIff | apps/extension/src/background.ts:178-181 | over every run a fill is of the generation its offer was made in if and only if no message between the offer and the selection found the session timed out |
| FillPolicyTheorems.OfferSurvivesReunlock | apps/extension/src/background.ts:178-181 | a run in which unlocking after a timeout leaves the earlier session's offer pending |
| FillPolicyTheorems.OldOfferIsFilled | apps/extension/src/background.ts:215-317 | and its continuation, in which that offer is granted and filled in the later generation |
| FillPolicyTheorems.FillsLeaveAnActiveSession | apps/extension/src/background.ts:295-307 | a fill is sent only in an active session of the selection's generation, for an item the offer named |
| FillPolicyTheorems.OldGrantsReleaseNothing | packages/extension-adapters/src/capability.ts:69-82 | after any lock no earlier grant releases a fill, although a timeout leaves it stored |
| FillPolicyTheorems.NoLockBetweenSelectionAndSend | apps/extension/src/background.ts:278-307 | at every instant between the popup's selection and the send the session is active in one generation |
| FillPolicyAnswers.SessionMovesExactly | packages/extension-adapters/src/session-state.ts:52-81 | in every run a step ends the generation if and only if it finds more than five minutes of inactivity or runs a lock; the session is active afterwards exactly if it stays so or the vault was opened, and only popup messages put the deadline off |
| FillPolicyAnswers.LocksLock | apps/extension/src/background.ts:89-101 | in every run the popup's lock, its closing, a lost authorization, a logout and a re-unlock leave an inactive session of a later generation without capability or offer |
| FillPolicyAnswers.LocksStopEveryTask | apps/extension/src/background.ts:89-101 | and no task that was under way then ever releases a fill |
| FillPolicyAnswers.LocksNameTheirReason | packages/extension-adapters/src/session-state.ts:52-57 | every lock records its reason: the popup's closing, the deadline, or an explicit lock |
| FillPolicyAnswers.OfferMovesExactly | apps/extension/src/background.ts:103-133 | in every run an offer is made, replaced, withdrawn or kept exactly so |
| FillPolicyAnswers.AskedExactly | apps/extension/src/background.ts:117-132 | every offer made, and nothing else, is what the fills are traced to |
| FillPolicyAnswers.CapabilitiesMoveExactly | apps/extension/src/background.ts:207-232 | in every run capabilities are granted, spent and dropped exactly so |
| FillPolicyAnswers.ConsumeAnswers | packages/extension-adapters/src/capability.ts:69-82 | a capability is accepted exactly if it is known, at most 30 s old and bound as it is used; a refusal names the first of these that fails |
| FillPolicyAnswers.SelectionFillsIff | apps/extension/src/background.ts:271-317 | from every reachable state a selection, run through, releases its fill if and only if session, candidate, tab and capability all match |
| FillPolicyAnswers.FillsEndTheirOffer | apps/extension/src/background.ts:305-316 | a released fill awaits its delivery and then ends its offer, delivered or not |
| FillPolicyAnswers.LogoutLocks | apps/extension/src/background.ts:197-205 | a logout locks whether or not the vault manager's own succeeds |
| FillPolicyAnswers.UnlockActivates | apps/extension/src/background.ts:176-196 | an unlock, run through, activates; of an active session it first drops every capability and offer |
| FillPolicyAnswers.FreshRequestIsGranted | apps/extension/src/background.ts:207-228 | a request for candidates, run through, is granted |
| SessionStore.Store.IssueSession | apps/backend-rust/src/auth/sessions.rs:62-88 | a live, device-unbound login session under its token hash |
| SessionStore.Store.ResolveSession | apps/backend-rust/src/auth/sessions.rs:93-128 | revoked, device-revoked, expired and unknown tokens all resolve to nothing |
| SessionStore.Store.BindSessionToDevice | apps/backend-rust/src/auth/sessions.rs:130-144 | rebinds unconditionally, and touches no other session |
| SessionStore.Store.RotateSession | apps/backend-rust/src/auth/sessions.rs:153-202 | in one step the session is revoked and its successor issued on its device and account, or nothing changes |
| SessionStore.Store.RevokeAllSessionsForAccount | apps/backend-rust/src/auth/sessions.rs:216-227 | revokes the account's live sessions and keeps earlier revocation times |
| SessionStore.Store.CreateLegacyDevice | apps/backend-rust/src/devices.rs:189-207 | an unrevoked device, no session bound yet |
| SessionStore.Store.EnrollBearerSessionDevice | apps/backend-rust/src/devices.rs:217-269 | succeeds exactly for a live, unexpired, unbound login session, and binds it to its new device |
| SessionStore.Store.RevokeDevice | apps/backend-rust/src/devices.rs:275-302 | the owner's unrevoked device and all its live sessions, or nothing |
| SessionTheorems.LineagesAreChains | apps/backend-rust/src/auth/sessions.rs:146-202 | of any two sessions descending from one login the one is an ancestor of the other and revoked: at most one is live |
| SessionTheorems.SessionsDescendFromLogins | apps/backend-rust/src/auth/sessions.rs:153-202 | every session descends from a login of its own account |
| SessionTheorems.RevokedForEver | apps/backend-rust/src/auth/sessions.rs:109-112 | a revoked session never resolves again and never gains a successor |
| SessionTheorems.BoundSessionsDie | apps/backend-rust/src/devices.rs:271-302 | the sessions bound to a device when its revocation commits never resolve again and never gain a successor |
| SessionTheorems.DeviceRevocationEndsLineage | apps/backend-rust/src/devices.rs:271-302 | revoking the device of a lineage's live session leaves no live session in that lineage, ever |
| SessionTheorems.EnrolsOnce | apps/backend-rust/src/devices.rs:240-244 | after a bearer enrolment no later one succeeds on that session |
| SessionTheorems.LateBindingOutlivesRevocation | apps/backend-rust/src/devices.rs:130-147 | a run of two legacy enrolments of one session: bound to the device that was revoked meanwhile it is refused but live, and binding the other makes its token resolve |
| SessionTheorems.ResolvesAgainIff | apps/backend-rust/src/devices.rs:117-147 | over every continuation a session whose device is revoked resolves if and only if it is live, unexpired, and the last binding since gave it an unrevoked device |
| SessionTheorems.ResolvesIff | apps/backend-rust/src/auth/sessions.rs:93-128 | in every reachable state a token resolves if and only if its session is unrevoked, unexpired and its device unrevoked |
| SessionAnswers.AnswersAreTheTokens | apps/backend-rust/src/auth/sessions.rs:93-128 | a token is answered with the one session whose token it is, or not at all |
| SessionAnswers.LoginResolves | apps/backend-rust/src/auth/sessions.rs:62-88 | a login resolves to its account without a device at exactly the times before its expiry |
| SessionAnswers.RotatesIff | apps/backend-rust/src/auth/sessions.rs:153-202 | in every reachable state a refresh issues if and only if the token resolves then with a device, which is registered; otherwise nothing changes |
| SessionAnswers.SuccessorResolves | apps/backend-rust/src/auth/sessions.rs:176-202 | the new token resolves to that account, device and `refresh` at exactly the times before the given expiry, the old one at none |
| SessionAnswers.SuccessorLives | apps/backend-rust/src/auth/sessions.rs:176-202 | over every continuation it does so while it and its device are unrevoked, and the old one never resolves |
| SessionAnswers.EnrolsIff | apps/backend-rust/src/devices.rs:217-269 | a bearer enrolment succeeds if and only if the token resolves to a login without a device, and the token then resolves with it |
| SessionAnswers.LegacyEnrols | apps/backend-rust/src/devices.rs:130-147 | a legacy enrolment registers its device for the session's account, and binding it makes the token resolve with it while both are unrevoked |
| SessionAnswers.LegacyEnrolmentProceeds | apps/backend-rust/src/devices.rs:117-147 | each authenticated request creates one device, which is bound once |
| SessionAnswers.RevokesExactly | apps/backend-rust/src/auth/sessions.rs:204-227 | which sessions each transaction revokes, and with which time |
| SessionAnswers.RevokedNeverResolves | apps/backend-rust/src/devices.rs:275-302 | whatever a transaction revokes never resolves again |
| SessionAnswers.RevokesDeviceExactly | apps/backend-rust/src/devices.rs:275-302 | a device revocation marks exactly the caller's unrevoked device |
| SessionAnswers.OthersResolveAlike | apps/backend-rust/src/auth/sessions.rs:93-227 | every transaction leaves the answers to all tokens of other sessions as they were |
| KeyBundleStore.Store.SelectForUpdate | apps/backend-rust/src/account.rs:262-326 | the transaction that finds a row decides it; one that finds none goes on to insert version 1 |
| KeyBundleStore.Store.InsertRow | apps/backend-rust/src/account.rs:277-295 | inserts, or starts the next of five rounds on a unique violation |
| KeyBundleStore.Store.Round | apps/backend-rust/src/account.rs:262-326 | one round is lost exactly to a row that appears between SELECT and INSERT; otherwise it succeeds for the next version or the stored bytes, and a conflict leaves the row as it was |
| KeyBundleStore.Store.PublishKeyBundle | apps/backend-rust/src/account.rs:255-331 | the whole loop, against anything other calls do to the row: which rounds are lost, what the deciding round answers, the caller's row after a success, the error after the loop exactly when five races are lost, and two rounds at most if rows are not deleted |
| KeyBundleTheorems.VersionsAreConsecutive | apps/backend-rust/src/account.rs:298-326 | over all interleavings the committed versions of an account are 1, 2, 3, ... and the row holds the last |
| KeyBundleTheorems.OneBundlePerVersion | apps/backend-rust/src/account.rs:298-308 | two calls that succeed with one version published the same bytes |
| KeyBundleTheorems.AnswersMatchTheRow | apps/backend-rust/src/account.rs:298-326 | the single step of the next row: in every reachable state the step of a success leaves exactly the caller's row; a conflict is answered if and only if the row it read had no room, and leaves it as it was |
| KeyBundleTheorems.OutcomesNameTheWrite | apps/backend-rust/src/account.rs:262-326 | the outcome says what was written: a first row, the next version, or nothing because the row was already the caller's |
| KeyBundleTheorems.SuccessHadTheRow | apps/backend-rust/src/account.rs:298-326 | over every run, deletions included, a call that returned success was under way at an instant when the row held exactly its bytes and version |
| KeyBundleTheorems.TwoRoundsSuffice | apps/backend-rust/src/account.rs:261-331 | while rows are not deleted every call returns within two rounds and never the error after the loop |
| KeyBundleTheorems.CallsReturn | apps/backend-rust/src/account.rs:261-331 | each of a call's at most three steps brings it nearer to its return |
| KeyBundleTheorems.RowNotFoundNeedsFourDeletions | apps/backend-rust/src/account.rs:328-330 | the error after the loop needs four deletions of the row during the call |
| KeyBundleTheorems.FourDeletionsReachTheError | apps/backend-rust/src/account.rs:328-330 | and four are enough: a run from empty tables with exactly four that returns the error |
| KeyBundleTheorems.LostRaceCostsARound | apps/backend-rust/src/account.rs:290-293 | with the row deleted before each SELECT a lost race costs a round each time, and the fifth returns the error |
| AdmissionLimiting.AdmissionLimiter.Allow | apps/backend-rust/src/auth/admission.rs:44-54 | expired buckets are evicted, the attempt is counted in the key's live bucket or a new one, and the answer compares that count |
| AdmissionTheorems.AdmissionsAreExact | apps/backend-rust/src/auth/admission.rs:40-54 | over every run, over any mixture of keys, how many of a bucket's n calls are admitted, wraps of the `u32` counter included |
| AdmissionTheorems.BucketsAdmitTheirFirstMax | apps/backend-rust/src/auth/admission.rs:40-54 | a bucket admits exactly its first `max` calls if and only if it counts fewer than 2^32 |
| AdmissionTheorems.AtMostTwiceMax | apps/backend-rust/src/auth/admission.rs:44-54 | a key is admitted at most 2·max times in every half-open interval of one window, in which none of its buckets wraps |
| AdmissionTheorems.AdmittedInIsExact | apps/backend-rust/src/auth/admission.rs:40-54 | over every run the number admitted to a key in such an interval is exactly what the interval's calls added to the admissions of the at most two buckets they count in, wraps included |
| AdmissionTheorems.WrappedBucketExceedsTwiceMax | apps/backend-rust/src/auth/admission.rs:44-54 | the condition is needed under every limit: a run that wraps a bucket twice is admitted 2·(max+1) times within one window |
| AdmissionTheorems.OtherKeysLeaveBucket | apps/backend-rust/src/auth/admission.rs:47-51 | traffic on other keys leaves a live bucket as it is |
| AdmissionTheorems.LiveBucketKeepsItsEnd | apps/backend-rust/src/auth/admission.rs:40-51 | retrying never moves a live bucket's end |
| AdmissionTheorems.ExpiredBucketsAreEvicted | apps/backend-rust/src/auth/admission.rs:46 | after every call only live buckets are kept, and the caller's own |
| AdmissionTheorems.CounterWraps | apps/backend-rust/src/auth/admission.rs:52-53 | a run of 2^32 calls from the empty limiter: the last is admitted whatever the limit |
| Csv.ParseCsv | packages/importers/src/csv-parser.ts:8-73 | the loop terminates on every input with what the recursive specification parses |
| Csv.ParseInvertsWrite | packages/importers/src/csv-parser.ts:26-73 | for every choice of quoting, mixture of LF and CRLF and closed or open last line, the written table comes back without its rows of one empty field |
| Csv.QuotedTablesRoundTrip | packages/importers/src/csv-parser.ts:26-73 | a fully quoted table of non-empty rows comes back if and only if no row is one empty field |
| Csv.NoneIsEmpty | packages/importers/src/csv-parser.ts:71-72 | no result holds a row of one empty field |
| Csv.OpenQuoteTakesTheRest | packages/importers/src/csv-parser.ts:27-45 | an unclosed quote takes the rest of the text as one field |
| Csv.InnerQuoteIsLiteral | packages/importers/src/csv-parser.ts:46-50 | a quote inside a field that began without one is an ordinary character |
| Csv.TextAfterQuotesJoins | packages/importers/src/csv-parser.ts:37-41 | text after a closing quote belongs to the same field |
| Csv.CarriageReturnsAreDropped | packages/importers/src/csv-parser.ts:56-59 | a carriage return outside quotes is dropped |

## Left out

- SyncRefusals.HonestServerIsNeverRefused: only for clients that run nothing beside a pull, which the source does not enforce; `RefusedIffOvertaken` is the exact condition for all others.
- SyncEngine.Engine.Pull: the whole loop is stated against a server that does not change meanwhile; pulls that overlap anything are covered by the steps of `SyncWorld`.
- AdmissionTheorems.AtMostTwiceMax: excludes intervals that meet a bucket of the key with 2^32 calls or more, because the `u32` count wraps there (`WrappedBucketExceedsTwiceMax`).
- The queue is not claimed to drain: a replayed 201 older than the local record leaves its entry SYNCING.
- The fast-path read of recorded outcomes before the transaction, request validation, HTTP status mapping and the `limit` query parameter of the feed.
- i64 overflow of revisions and sequences, and i32 overflow of `existing.version + 1`, which no accepted version reaches.
- Cryptographic primitives, password hashing, OPAQUE, token hashing and random generation.
- HTTP, SQL, IndexedDB and browser messaging, replaced by maps, atomic steps and explicit message loss.
- The popup's read-only messages, the saved account association and the contents of the candidate decision, which enters as a parameter.
- `decryptConflict`, search, the clipboard timer and the selected item of the vault session.
- The extension's vault manager apart from `#loadAllItems`: its own locking, freshness cache and saving.
- Session expiry cleanup and the deletion of abandoned accounts.
- `inspect_envelope`, key hierarchy and recovery, the account bundle JSON codecs and migrations.
- Surrogate pairs in CSV text: a Dafny `char` stands for a UTF-16 code unit, and the parser only looks at ASCII.
