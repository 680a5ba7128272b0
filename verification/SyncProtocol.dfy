/** Shared option and result types. */
module Wrappers {
  datatype Option<+T> = None | Some(value: T)

  datatype Result<+T, +E> = Ok(value: T) | Err(error: E)
}

/**
 The wire records, the server's tables, and one mutation transaction
 (`apps/backend-rust/src/sync.rs`).
 */
module SyncModel {
  import opened Wrappers

  type Id = string
  type Time = int

  /** The primary key of `vault_items`, and of a client's local items. */
  datatype Key = Key(vaultId: Id, itemId: Id)

  datatype ItemRecord = ItemRecord(
    itemId: Id, vaultId: Id, ciphertext: string, envelopeVersion: string,
    revision: int, deleted: bool, createdAt: Time, updatedAt: Time)
  {
    function At(): Key { Key(vaultId, itemId) }
  }

  datatype Mutation = Mutation(
    mutationId: Id, itemId: Id, vaultId: Id, baseRevision: int,
    ciphertext: string, envelopeVersion: string, deleted: bool)
  {
    function At(): Key { Key(vaultId, itemId) }
  }

  datatype Row = Row(record: ItemRecord, sequence: int)

  /** The primary key of `mutation_outcomes`. */
  datatype RequestId = RequestId(account: Id, mutationId: Id)

  /** An answer of `POST /vaults/{vaultId}/items`: 201, 409, 404 or 400. */
  datatype Reply =
    | Created(item: ItemRecord)
    | Conflict(mutationId: Id, current: ItemRecord, attempted: Mutation)
    | NotFound
    | BadRequest

  /** `vaults`, `vault_items`, `mutation_outcomes` and `vault_change_sequence`. */
  datatype Tables = Tables(
    vaults: map<Id, Id>, items: map<Key, Row>,
    outcomes: map<RequestId, Reply>, sequence: int)
  {
    function CurrentRevision(key: Key): int {
      if key in items then items[key].record.revision else 0
    }
  }

  const EMPTY_TABLES := Tables(map[], map[], map[], 0)

  /** The row `upsert_item` leaves. An update keeps `created_at`, and consumes two
      sequence values: one for the proposed row and one for the SET clause. */
  function UpsertedRow(t: Tables, m: Mutation, now: Time): Row {
    var revision := t.CurrentRevision(m.At()) + 1;
    if m.At() in t.items then
      var created := t.items[m.At()].record.createdAt;
      Row(ItemRecord(m.itemId, m.vaultId, m.ciphertext, m.envelopeVersion, revision, m.deleted, created, now), t.sequence + 2)
    else
      Row(ItemRecord(m.itemId, m.vaultId, m.ciphertext, m.envelopeVersion, revision, m.deleted, now, now), t.sequence + 1)
  }

  /** `ensure_vault_ownership`: an unclaimed vault goes to the caller. */
  predicate MayWrite(t: Tables, account: Id, vaultId: Id) {
    vaultId in t.vaults ==> t.vaults[vaultId] == account
  }

  /** The commit of the conflict branch. */
  function CommitConflict(t: Tables, account: Id, m: Mutation): Tables
    requires m.At() in t.items
  {
    var body := Conflict(m.mutationId, t.items[m.At()].record, m);
    t.(vaults := t.vaults[m.vaultId := account], outcomes := t.outcomes[RequestId(account, m.mutationId) := body])
  }

  /** The commit of the write branch. */
  function CommitWrite(t: Tables, account: Id, m: Mutation, now: Time): Tables {
    var row := UpsertedRow(t, m, now);
    Tables(t.vaults[m.vaultId := account], t.items[m.At() := row],
           t.outcomes[RequestId(account, m.mutationId) := Created(row.record)], row.sequence)
  }

  /** One `apply_mutation` transaction: replay, ownership, `baseRevision` check, write. */
  function ApplyMutation(t: Tables, account: Id, m: Mutation, now: Time): (Tables, Reply) {
    var id := RequestId(account, m.mutationId);
    if id in t.outcomes then
      (t, t.outcomes[id])
    else if !MayWrite(t, account, m.vaultId) then
      (t, NotFound)
    else if m.baseRevision == t.CurrentRevision(m.At()) then
      var written := CommitWrite(t, account, m, now);
      (written, written.outcomes[id])
    else if m.At() in t.items then
      var refused := CommitConflict(t, account, m);
      (refused, refused.outcomes[id])
    else
      (t, BadRequest)
  }

  /** The unique index on `sequence`. */
  ghost predicate DistinctSequences(items: map<Key, Row>) {
    forall k1, k2 | k1 in items && k2 in items && k1 != k2 :: items[k1].sequence != items[k2].sequence
  }

  /** The contract of `list_changes`: `SELECT ... WHERE vault_id AND sequence > after
      ORDER BY sequence ASC LIMIT limit`. */
  ghost predicate IsFeedPage(t: Tables, vaultId: Id, after: int, limit: nat, rows: seq<Row>) {
    && |rows| <= limit
    && (forall j | 0 <= j < |rows| :: IsFeedRow(t, vaultId, after, rows[j]))
    && (forall i, j | 0 <= i < j < |rows| :: rows[i].sequence < rows[j].sequence)
    && (forall key | key in t.items && key.vaultId == vaultId && t.items[key].sequence > after ::
          t.items[key] in rows || (|rows| == limit && forall j | 0 <= j < |rows| :: rows[j].sequence < t.items[key].sequence))
  }

  predicate IsFeedRow(t: Tables, vaultId: Id, after: int, row: Row) {
    && row.record.At() in t.items
    && t.items[row.record.At()] == row
    && row.record.vaultId == vaultId
    && row.sequence > after
  }

  const FEED_LIMIT: nat := 100

  /** A page of the change feed, its cursor read as the sequence it encodes. */
  datatype Page = Page(changes: seq<ItemRecord>, nextCursor: int)

  function Records(rows: seq<Row>): (records: seq<ItemRecord>)
    ensures |records| == |rows|
    ensures forall j | 0 <= j < |rows| :: records[j] == rows[j].record
  {
    seq(|rows|, j requires 0 <= j < |rows| => rows[j].record)
  }

  /** `vault_owned_by`. */
  predicate Owns(t: Tables, account: Id, vaultId: Id) {
    vaultId in t.vaults && t.vaults[vaultId] == account
  }

  /** The body of `get_changes`: an empty page repeats the caller's cursor. */
  function PageOf(rows: seq<Row>, after: int): Page {
    Page(Records(rows), if rows == [] then after else rows[|rows| - 1].sequence)
  }

  /** The sequence a stored or absent cursor stands for. */
  function After(cursor: Option<int>): int {
    if cursor.Some? then cursor.value else 0
  }

  /** `assertMonotonicPut` of `packages/sdk/src/repository.ts`: does the put pass? */
  predicate MonotonicPut(items: map<Key, ItemRecord>, incoming: ItemRecord) {
    incoming.At() in items ==>
      var existing := items[incoming.At()];
      && incoming.revision >= existing.revision
      && (incoming.revision == existing.revision ==> SameRecordBytes(existing, incoming))
  }

  predicate SameRecordBytes(a: ItemRecord, b: ItemRecord) {
    && a.ciphertext == b.ciphertext
    && a.envelopeVersion == b.envelopeVersion
    && a.deleted == b.deleted
    && a.createdAt == b.createdAt
    && a.updatedAt == b.updatedAt
  }
}

/**
 The server's tables together with the writes it has accepted, in commit order
 for each item, and the invariant every sequence of transactions keeps.
 */
module SyncLedger {
  import opened Wrappers
  import opened SyncModel

  /** An accepted write. */
  datatype Commit = Commit(account: Id, mutation: Mutation, record: ItemRecord)

  /** `history` is a history variable: no transaction reads it. */
  datatype Ledger = Ledger(tables: Tables, history: map<Key, seq<Commit>>)
  {
    function Log(key: Key): seq<Commit> {
      if key in history then history[key] else []
    }

    /** A record the server once stored, at the revision it carries. */
    predicate Knows(record: ItemRecord) {
      && 1 <= record.revision <= |Log(record.At())|
      && Log(record.At())[record.revision - 1].record == record
    }

    predicate Accepted(id: RequestId) {
      id in tables.outcomes && tables.outcomes[id].Created?
    }
  }

  const EMPTY_LEDGER := Ledger(EMPTY_TABLES, map[])

  predicate Writes(t: Tables, account: Id, m: Mutation) {
    && RequestId(account, m.mutationId) !in t.outcomes
    && MayWrite(t, account, m.vaultId)
    && m.baseRevision == t.CurrentRevision(m.At())
  }

  /** `apply_mutation`, recording the write if it accepted a new one. */
  function Transact(l: Ledger, account: Id, m: Mutation, now: Time): Ledger {
    var (tables, reply) := ApplyMutation(l.tables, account, m, now);
    if Writes(l.tables, account, m) then
      var commit := Commit(account, m, tables.items[m.At()].record);
      Ledger(tables, l.history[m.At() := l.Log(m.At()) + [commit]])
    else
      l.(tables := tables)
  }

  /** The commit at index j made revision j+1 from a mutation based on revision j. */
  ghost predicate CommitInv(l: Ledger, key: Key, j: nat)
    requires j < |l.Log(key)|
  {
    var c := l.Log(key)[j];
    && c.record.At() == c.mutation.At() == key
    && c.record.revision == j + 1
    && c.mutation.baseRevision == j
    && c.record.ciphertext == c.mutation.ciphertext
    && c.record.envelopeVersion == c.mutation.envelopeVersion
    && c.record.deleted == c.mutation.deleted
    && RequestId(c.account, c.mutation.mutationId) in l.tables.outcomes
    && l.tables.outcomes[RequestId(c.account, c.mutation.mutationId)] == Created(c.record)
  }

  ghost predicate HistoryInv(l: Ledger) {
    forall key: Key, j: nat {:trigger CommitInv(l, key, j)} | j < |l.Log(key)| :: CommitInv(l, key, j)
  }

  ghost predicate RowInv(l: Ledger, key: Key)
    requires key in l.tables.items
  {
    var row := l.tables.items[key];
    && 1 <= row.sequence <= l.tables.sequence
    && key.vaultId in l.tables.vaults
    && 0 < |l.Log(key)|
    && row.record == l.Log(key)[|l.Log(key)| - 1].record
  }

  ghost predicate RowsInv(l: Ledger) {
    && 0 <= l.tables.sequence
    && (forall key {:trigger RowInv(l, key)} | key in l.tables.items :: RowInv(l, key))
    && (forall key :: key !in l.tables.items ==> l.Log(key) == [])
    && DistinctSequences(l.tables.items)
  }

  ghost predicate OutcomesKnown(l: Ledger) {
    forall id {:trigger OutcomeInv(l, id, l.tables.outcomes[id])} | id in l.tables.outcomes :: OutcomeInv(l, id, l.tables.outcomes[id])
  }

  ghost predicate OutcomeInv(l: Ledger, id: RequestId, reply: Reply) {
    match reply
    case Created(item) =>
      && l.Knows(item)
      && var c := l.Log(item.At())[item.revision - 1];
         c.account == id.account && c.mutation.mutationId == id.mutationId
    case Conflict(mutationId, current, attempted) =>
      && mutationId == attempted.mutationId == id.mutationId
      && current.At() == attempted.At()
      && l.Knows(current)
      && current.revision != attempted.baseRevision
    case _ => false
  }

  ghost predicate LedgerInv(l: Ledger) {
    && HistoryInv(l)
    && RowsInv(l)
    && OutcomesKnown(l)
  }

  /** How tables may evolve: recorded replies and accepted writes stay, and a row
      that changed moved above every sequence handed out before. */
  ghost predicate Grows(l: Ledger, l': Ledger) {
    && l.tables.sequence <= l'.tables.sequence
    && (forall id | id in l.tables.outcomes :: id in l'.tables.outcomes && l'.tables.outcomes[id] == l.tables.outcomes[id])
    && (forall key :: l.Log(key) <= l'.Log(key))
    && (forall key | key in l.tables.items :: key in l'.tables.items)
    && (forall key | key in l'.tables.items ::
          || (key in l.tables.items && l'.tables.items[key] == l.tables.items[key])
          || l'.tables.items[key].sequence > l.tables.sequence)
  }

  lemma TransactGrows(l: Ledger, account: Id, m: Mutation, now: Time)
    ensures Grows(l, Transact(l, account, m, now))
  {
  }

  lemma GrowsKnows(l: Ledger, l': Ledger, record: ItemRecord)
    requires Grows(l, l') && l.Knows(record)
    ensures l'.Knows(record)
  {
    assert l.Log(record.At()) <= l'.Log(record.At());
  }

  lemma GrowsOutcome(l: Ledger, l': Ledger, id: RequestId, reply: Reply)
    requires Grows(l, l') && OutcomeInv(l, id, reply)
    ensures OutcomeInv(l', id, reply)
  {
    match reply {
      case Created(item) => assert l.Log(item.At()) <= l'.Log(item.At());
      case Conflict(_, current, _) => GrowsKnows(l, l', current);
      case _ =>
    }
  }

  /** A record in a row is known at the item's last revision. */
  lemma RowIsKnown(l: Ledger, key: Key)
    requires LedgerInv(l) && key in l.tables.items
    ensures l.tables.items[key].record.At() == key
    ensures l.tables.items[key].record.revision == |l.Log(key)|
    ensures l.Knows(l.tables.items[key].record)
  {
    assert RowInv(l, key);
    assert CommitInv(l, key, |l.Log(key)| - 1);
  }

  lemma CurrentRevisionIsLogLength(l: Ledger, key: Key)
    requires LedgerInv(l)
    ensures l.tables.CurrentRevision(key) == |l.Log(key)|
  {
    if key in l.tables.items {
      RowIsKnown(l, key);
    }
  }

  /** Two records of one item known at one revision are one record. */
  lemma KnownIsUnique(l: Ledger, a: ItemRecord, b: ItemRecord)
    requires l.Knows(a) && l.Knows(b) && a.At() == b.At() && a.revision == b.revision
    ensures a == b
  {
  }

  /** No local record is ahead of the server's row. */
  lemma KnownIsNotAhead(l: Ledger, record: ItemRecord)
    requires LedgerInv(l) && l.Knows(record)
    ensures record.At() in l.tables.items
    ensures record.revision <= l.tables.items[record.At()].record.revision
    ensures record.revision == l.tables.items[record.At()].record.revision ==> record == l.tables.items[record.At()].record
  {
    RowIsKnown(l, record.At());
  }

  lemma TransactKeepsHistory(l: Ledger, account: Id, m: Mutation, now: Time)
    requires LedgerInv(l)
    ensures HistoryInv(Transact(l, account, m, now))
  {
    var l' := Transact(l, account, m, now);
    CurrentRevisionIsLogLength(l, m.At());
    TransactGrows(l, account, m, now);
    forall key: Key, j: nat | j < |l'.Log(key)|
      ensures CommitInv(l', key, j)
    {
      if j < |l.Log(key)| {
        assert CommitInv(l, key, j);
      }
    }
  }

  lemma WriteKeepsRows(l: Ledger, account: Id, m: Mutation, now: Time)
    requires LedgerInv(l) && Writes(l.tables, account, m)
    ensures RowsInv(Transact(l, account, m, now))
  {
    var l' := Transact(l, account, m, now);
    assert l'.tables == CommitWrite(l.tables, account, m, now);
    forall key | key in l'.tables.items
      ensures RowInv(l', key)
      ensures key != m.At() ==> l'.tables.items[key].sequence < l'.tables.items[m.At()].sequence
    {
      if key != m.At() {
        assert RowInv(l, key);
        assert l'.Log(key) == l.Log(key);
      }
    }
    forall key | key !in l'.tables.items
      ensures l'.Log(key) == []
    {
      assert l'.Log(key) == l.Log(key);
    }
  }

  lemma UnwrittenRowsStay(l: Ledger, l': Ledger)
    requires RowsInv(l) && l'.history == l.history
    requires l'.tables.items == l.tables.items && l.tables.sequence <= l'.tables.sequence
    requires l.tables.vaults.Keys <= l'.tables.vaults.Keys
    ensures RowsInv(l')
  {
    forall key | key in l'.tables.items
      ensures RowInv(l', key)
    {
      assert RowInv(l, key);
    }
    forall key | key !in l'.tables.items
      ensures l'.Log(key) == []
    {
      assert l.Log(key) == [];
    }
  }

  lemma TransactKeepsRows(l: Ledger, account: Id, m: Mutation, now: Time)
    requires LedgerInv(l)
    ensures RowsInv(Transact(l, account, m, now))
  {
    if Writes(l.tables, account, m) {
      WriteKeepsRows(l, account, m, now);
    } else {
      UnwrittenRowsStay(l, Transact(l, account, m, now));
    }
  }

  lemma TransactKeepsOutcomes(l: Ledger, account: Id, m: Mutation, now: Time, id: RequestId)
    requires LedgerInv(l) && id in Transact(l, account, m, now).tables.outcomes
    ensures OutcomeInv(Transact(l, account, m, now), id, Transact(l, account, m, now).tables.outcomes[id])
  {
    var l' := Transact(l, account, m, now);
    TransactGrows(l, account, m, now);
    if id in l.tables.outcomes {
      GrowsOutcome(l, l', id, l.tables.outcomes[id]);
    } else if Writes(l.tables, account, m) {
      CurrentRevisionIsLogLength(l, m.At());
    } else {
      RowIsKnown(l, m.At());
      GrowsKnows(l, l', l.tables.items[m.At()].record);
    }
  }

  lemma TransactKeepsInv(l: Ledger, account: Id, m: Mutation, now: Time)
    requires LedgerInv(l)
    ensures LedgerInv(Transact(l, account, m, now))
  {
    TransactKeepsHistory(l, account, m, now);
    TransactKeepsRows(l, account, m, now);
    var l' := Transact(l, account, m, now);
    forall id | id in l'.tables.outcomes
      ensures OutcomeInv(l', id, l'.tables.outcomes[id])
    {
      TransactKeepsOutcomes(l, account, m, now, id);
    }
  }

  /** No mutation of an account is accepted twice, over all items and revisions. */
  lemma AcceptedAtMostOnce(l: Ledger, k1: Key, j1: nat, k2: Key, j2: nat)
    requires LedgerInv(l)
    requires j1 < |l.Log(k1)| && j2 < |l.Log(k2)|
    requires l.Log(k1)[j1].account == l.Log(k2)[j2].account
    requires l.Log(k1)[j1].mutation.mutationId == l.Log(k2)[j2].mutation.mutationId
    ensures k1 == k2 && j1 == j2
  {
    assert CommitInv(l, k1, j1);
    assert CommitInv(l, k2, j2);
  }
}

/**
 One server, any number of clients, and a network that loses, delays, reorders
 and repeats messages. Every `await` of the client engine
 (`packages/sdk/src/sync-state-machine.ts`) ends a step, so the tasks of one
 client interleave with each other, with other clients and with the server.

 A run is any sequence of events; an event that is not enabled changes nothing.
 Hypotheses: one `apply_mutation` transaction is one step, commits happen in
 sequence order, and a mutation id names one mutation of an account.
 */
module SyncWorld {
  import opened Wrappers
  import opened SyncModel
  import opened SyncLedger

  /** LOCAL_DIRTY, SYNCING, RETRYABLE, CONFLICT and LOCAL_CLEAN. */
  datatype QueueState = Dirty | Syncing | Retryable | Conflicted | Clean

  datatype QueuedMutation = QueuedMutation(mutation: Mutation, state: QueueState, attempts: nat, nextRetryAt: Option<Time>)

  datatype PullPhase = Asking | Waiting(request: nat) | Applying(page: Page, applied: nat)

  /** A `pull` in progress, with its local `cursor` and the pages it may still ask for. */
  datatype Pull = Pull(vaultId: Id, cursor: Option<int>, pagesLeft: nat, phase: PullPhase)

  datatype PushPhase = Starting | Sent | Confirmed

  /** A `pushOne` in progress on the queue entry it was called with. */
  datatype Push = Push(entry: QueuedMutation, phase: PushPhase)
  {
    function Id(): Id { entry.mutation.mutationId }
  }

  /** A client's durable repository and its tasks. `owed` is a history variable: the
      edits the application enqueued and did not withdraw. */
  datatype Client = Client(
    account: Id, items: map<Key, ItemRecord>, cursors: map<Id, int>, queue: map<Id, QueuedMutation>,
    pulls: map<nat, Pull>, pushes: map<nat, Push>, owed: set<Id>)

  datatype FeedRequest = FeedRequest(account: Id, vaultId: Id, after: int)

  /** Every message ever sent: none is ever consumed, so each may arrive any number of times or never. */
  datatype Network = Network(
    mutations: set<(Id, Mutation)>, replies: set<(Id, Mutation, Reply)>,
    feeds: map<nat, FeedRequest>, pages: set<(nat, Page)>)

  datatype World = World(ledger: Ledger, clients: map<nat, Client>, issued: map<RequestId, Mutation>, net: Network)
  {
    predicate Issued(account: Id, m: Mutation) {
      var id := RequestId(account, m.mutationId);
      id in issued && issued[id] == m
    }
  }

  datatype Action =
    | Enqueue(mutation: Mutation)
    | Withdraw(mutationId: Id)
    | PushStart(task: nat, entry: QueuedMutation)
    | PushSend(task: nat)
    | PushReply(task: nat, reply: Reply)
    | PushDequeue(task: nat)
    | PushRefused(task: nat)
    | PushLost(task: nat, retryAt: Time)
    | PullStart(task: nat, vaultId: Id, maxPages: nat)
    | PullSend(task: nat, request: nat)
    | PullReceive(task: nat, page: Page)
    | PullPut(task: nat)
    | PullCommit(task: nat)
    | Abandon(task: nat)

  datatype Event =
    | Deliver(account: Id, mutation: Mutation, now: Time)
    | BurnSequence
    | AnswerFeed(request: nat, rows: seq<Row>)
    | Act(client: nat, action: Action)

  // The client's steps.

  predicate Idle(cl: Client, task: nat) {
    task !in cl.pulls && task !in cl.pushes
  }

  /** The client is at the step's place in the code. */
  predicate Ready(cl: Client, a: Action) {
    match a
    case Enqueue(_) => true
    case Withdraw(_) => true
    case PushStart(t, _) => Idle(cl, t)
    case PushSend(t) => t in cl.pushes && cl.pushes[t].phase == Starting
    case PushReply(t, _) => t in cl.pushes && cl.pushes[t].phase == Sent
    case PushDequeue(t) => t in cl.pushes && cl.pushes[t].phase == Confirmed
    case PushRefused(t) => t in cl.pushes && cl.pushes[t].phase == Sent
    case PushLost(t, _) => t in cl.pushes && cl.pushes[t].phase == Sent
    case PullStart(t, _, _) => Idle(cl, t)
    case PullSend(t, _) => t in cl.pulls && cl.pulls[t].phase == Asking && 0 < cl.pulls[t].pagesLeft
    case PullReceive(t, _) => t in cl.pulls && cl.pulls[t].phase.Waiting?
    case PullPut(t) =>
      t in cl.pulls && cl.pulls[t].phase.Applying? && cl.pulls[t].phase.applied < |cl.pulls[t].phase.page.changes|
    case PullCommit(t) =>
      t in cl.pulls && cl.pulls[t].phase.Applying? && cl.pulls[t].phase.applied == |cl.pulls[t].phase.page.changes|
    case Abandon(_) => true
  }

  /** The message the step receives was sent, and the id it introduces is fresh. An
      edit may be enqueued again, and any entry ever enqueued may be pushed. */
  predicate Permitted(w: World, cl: Client, a: Action)
    requires Ready(cl, a)
  {
    match a
    case Enqueue(m) => RequestId(cl.account, m.mutationId) !in w.issued || w.Issued(cl.account, m)
    case PushStart(_, entry) => w.Issued(cl.account, entry.mutation)
    case PushReply(t, reply) => (cl.account, cl.pushes[t].entry.mutation, reply) in w.net.replies
    case PullSend(_, req) => req !in w.net.feeds
    case PullReceive(t, page) => (cl.pulls[t].phase.request, page) in w.net.pages
    case _ => true
  }

  predicate Enabled(w: World, cl: Client, a: Action) {
    Ready(cl, a) && Permitted(w, cl, a)
  }

  function SetQueued(cl: Client, entry: QueuedMutation): Client {
    cl.(queue := cl.queue[entry.mutation.mutationId := entry])
  }

  function EndPush(cl: Client, t: nat): Client {
    cl.(pushes := cl.pushes - {t})
  }

  function EndPull(cl: Client, t: nat): Client {
    cl.(pulls := cl.pulls - {t})
  }

  /** A 201, a 409 or an HTTP error reaches a `pushOne`. */
  function OnReply(cl: Client, t: nat, reply: Reply): Client
    requires t in cl.pushes
  {
    var p := cl.pushes[t];
    match reply
    case Created(item) =>
      if MonotonicPut(cl.items, item) then
        cl.(items := cl.items[item.At() := item], pushes := cl.pushes[t := p.(phase := Confirmed)])
      else
        EndPush(cl, t)
    case Conflict(_, _, _) => EndPush(SetQueued(cl, p.entry.(state := Conflicted)), t)
    case _ => EndPush(SetQueued(cl, p.entry.(state := Dirty)), t)
  }

  /** One record of a page goes through the vault check and `putItem`. */
  function OnPut(cl: Client, t: nat): Client
    requires t in cl.pulls && cl.pulls[t].phase.Applying?
    requires cl.pulls[t].phase.applied < |cl.pulls[t].phase.page.changes|
  {
    var p := cl.pulls[t];
    var record := p.phase.page.changes[p.phase.applied];
    if record.vaultId == p.vaultId && MonotonicPut(cl.items, record) then
      cl.(items := cl.items[record.At() := record],
          pulls := cl.pulls[t := p.(phase := Applying(p.phase.page, p.phase.applied + 1))])
    else
      EndPull(cl, t)
  }

  /** The cursor advances after a whole page, and the loop goes on or stops. */
  function OnCommit(cl: Client, t: nat): Client
    requires t in cl.pulls && cl.pulls[t].phase.Applying?
  {
    var p := cl.pulls[t];
    var next := p.phase.page.nextCursor;
    var stored := cl.(cursors := cl.cursors[p.vaultId := next]);
    var madeProgress := p.phase.page.changes != [] && p.cursor != Some(next);
    if madeProgress && 1 < p.pagesLeft then
      stored.(pulls := cl.pulls[t := Pull(p.vaultId, Some(next), p.pagesLeft - 1, Asking)])
    else
      EndPull(stored, t)
  }

  function ClientStep(cl: Client, a: Action): Client
    requires Ready(cl, a)
  {
    match a
    case Enqueue(m) => SetQueued(cl, QueuedMutation(m, Dirty, 0, None)).(owed := cl.owed + {m.mutationId})
    case Withdraw(id) => cl.(queue := cl.queue - {id}, owed := cl.owed - {id})
    case PushStart(t, entry) => SetQueued(cl, entry.(state := Syncing)).(pushes := cl.pushes[t := Push(entry, Starting)])
    case PushSend(t) => cl.(pushes := cl.pushes[t := cl.pushes[t].(phase := Sent)])
    case PushReply(t, reply) => OnReply(cl, t, reply)
    case PushDequeue(t) => EndPush(cl.(queue := cl.queue - {cl.pushes[t].Id()}), t)
    case PushRefused(t) => EndPush(SetQueued(cl, cl.pushes[t].entry.(state := Dirty)), t)
    case PushLost(t, retryAt) =>
      var entry := cl.pushes[t].entry;
      EndPush(SetQueued(cl, entry.(state := Retryable, attempts := entry.attempts + 1, nextRetryAt := Some(retryAt))), t)
    case PullStart(t, v, maxPages) =>
      var cursor := if v in cl.cursors then Some(cl.cursors[v]) else None;
      cl.(pulls := cl.pulls[t := Pull(v, cursor, maxPages, Asking)])
    case PullSend(t, req) => cl.(pulls := cl.pulls[t := cl.pulls[t].(phase := Waiting(req))])
    case PullReceive(t, page) => cl.(pulls := cl.pulls[t := cl.pulls[t].(phase := Applying(page, 0))])
    case PullPut(t) => OnPut(cl, t)
    case PullCommit(t) => OnCommit(cl, t)
    case Abandon(t) => EndPull(EndPush(cl, t), t)
  }

  /** What a step of a client adds to the messages in flight. */
  function Sends(net: Network, cl: Client, a: Action): Network
    requires Ready(cl, a)
  {
    match a
    case PushSend(t) => net.(mutations := net.mutations + {(cl.account, cl.pushes[t].entry.mutation)})
    case PullSend(t, req) =>
      net.(feeds := net.feeds[req := FeedRequest(cl.account, cl.pulls[t].vaultId, After(cl.pulls[t].cursor))])
    case _ => net
  }

  function Registers(issued: map<RequestId, Mutation>, cl: Client, a: Action): map<RequestId, Mutation> {
    if a.Enqueue? then issued[RequestId(cl.account, a.mutation.mutationId) := a.mutation] else issued
  }

  // The world's steps.

  ghost function ActStep(w: World, c: nat, a: Action): World
    requires c in w.clients && Enabled(w, w.clients[c], a)
  {
    var cl := w.clients[c];
    World(w.ledger, w.clients[c := ClientStep(cl, a)], Registers(w.issued, cl, a), Sends(w.net, cl, a))
  }

  function DeliverStep(w: World, account: Id, m: Mutation, now: Time): World {
    var reply := ApplyMutation(w.ledger.tables, account, m, now).1;
    w.(ledger := Transact(w.ledger, account, m, now), net := w.net.(replies := w.net.replies + {(account, m, reply)}))
  }

  ghost predicate CanAnswer(w: World, req: nat, rows: seq<Row>) {
    && req in w.net.feeds
    && var f := w.net.feeds[req];
       && Owns(w.ledger.tables, f.account, f.vaultId)
       && IsFeedPage(w.ledger.tables, f.vaultId, f.after, FEED_LIMIT, rows)
  }

  function AnswerStep(w: World, req: nat, rows: seq<Row>): World
    requires req in w.net.feeds
  {
    w.(net := w.net.(pages := w.net.pages + {(req, PageOf(rows, w.net.feeds[req].after))}))
  }

  /** A sequence value drawn by a transaction that did not commit. */
  function BurnStep(w: World): World {
    w.(ledger := w.ledger.(tables := w.ledger.tables.(sequence := w.ledger.tables.sequence + 1)))
  }

  ghost function Step(w: World, e: Event): World {
    match e
    case Deliver(account, m, now) =>
      if (account, m) in w.net.mutations then DeliverStep(w, account, m, now) else w
    case BurnSequence => BurnStep(w)
    case AnswerFeed(req, rows) => if CanAnswer(w, req, rows) then AnswerStep(w, req, rows) else w
    case Act(c, a) => if c in w.clients && Enabled(w, w.clients[c], a) then ActStep(w, c, a) else w
  }

  function NewClient(account: Id): Client {
    Client(account, map[], map[], map[], map[], map[], {})
  }

  function Init(accounts: map<nat, Id>): World {
    World(EMPTY_LEDGER, map c | c in accounts :: NewClient(accounts[c]), map[], Network({}, {}, map[], {}))
  }

  /** The world after a run from empty tables and empty clients. */
  ghost function Run(accounts: map<nat, Id>, run: seq<Event>): World {
    if run == [] then Init(accounts) else Step(Run(accounts, run[..|run| - 1]), run[|run| - 1])
  }
}

/** The invariant of the sync protocol. */
module SyncInvariant {
  import opened Wrappers
  import opened SyncModel
  import opened SyncLedger
  import opened SyncWorld

  // What a client may rely on.

  /** Every row of the vault at or below `cursor` is held locally, exactly. */
  ghost predicate Exact(l: Ledger, items: map<Key, ItemRecord>, vaultId: Id, cursor: int) {
    forall key | key in l.tables.items && key.vaultId == vaultId && l.tables.items[key].sequence <= cursor ::
      key in items && items[key] == l.tables.items[key].record
  }

  ghost predicate CursorInv(l: Ledger, items: map<Key, ItemRecord>, vaultId: Id, cursor: int) {
    0 <= cursor <= l.tables.sequence && Exact(l, items, vaultId, cursor)
  }

  ghost predicate ItemsInv(l: Ledger, items: map<Key, ItemRecord>) {
    forall key | key in items :: items[key].At() == key && l.Knows(items[key])
  }

  /** A page, however old, still covers every row between its cursors. */
  ghost predicate PageInv(l: Ledger, vaultId: Id, after: int, page: Page) {
    && after <= page.nextCursor <= l.tables.sequence
    && (forall j | 0 <= j < |page.changes| :: page.changes[j].vaultId == vaultId && l.Knows(page.changes[j]))
    && (forall i, j | 0 <= i < j < |page.changes| :: page.changes[i].At() != page.changes[j].At())
    && (forall key | key in l.tables.items && key.vaultId == vaultId && after < l.tables.items[key].sequence <= page.nextCursor ::
          l.tables.items[key].record in page.changes)
  }

  /** The item is held at the record's revision or a later one. */
  predicate Holds(items: map<Key, ItemRecord>, record: ItemRecord) {
    record.At() in items && record.revision <= items[record.At()].revision
  }

  ghost predicate PullInv(w: World, account: Id, items: map<Key, ItemRecord>, p: Pull) {
    && CursorInv(w.ledger, items, p.vaultId, After(p.cursor))
    && match p.phase
       case Asking => true
       case Waiting(req) => req in w.net.feeds && w.net.feeds[req] == FeedRequest(account, p.vaultId, After(p.cursor))
       case Applying(page, applied) =>
         && PageInv(w.ledger, p.vaultId, After(p.cursor), page)
         && applied <= |page.changes|
         && forall j | 0 <= j < applied :: Holds(items, page.changes[j])
  }

  ghost predicate PushInv(w: World, account: Id, p: Push) {
    && w.Issued(account, p.entry.mutation)
    && (p.phase == Confirmed ==> w.ledger.Accepted(RequestId(account, p.Id())))
  }

  /** An edit the application still expects is queued, or the server accepted it. */
  ghost predicate OwedInv(w: World, account: Id, queue: map<Id, QueuedMutation>, id: Id) {
    && RequestId(account, id) in w.issued
    && (id in queue || w.ledger.Accepted(RequestId(account, id)))
  }

  ghost predicate QueueInv(w: World, account: Id, queue: map<Id, QueuedMutation>) {
    forall id | id in queue :: queue[id].mutation.mutationId == id && w.Issued(account, queue[id].mutation)
  }

  ghost predicate CursorsInv(l: Ledger, items: map<Key, ItemRecord>, cursors: map<Id, int>) {
    forall v {:trigger CursorInv(l, items, v, cursors[v])} | v in cursors :: CursorInv(l, items, v, cursors[v])
  }

  ghost predicate PullsInv(w: World, account: Id, items: map<Key, ItemRecord>, pulls: map<nat, Pull>) {
    forall t {:trigger PullInv(w, account, items, pulls[t])} | t in pulls :: PullInv(w, account, items, pulls[t])
  }

  ghost predicate PushesInv(w: World, account: Id, pushes: map<nat, Push>) {
    forall t {:trigger PushInv(w, account, pushes[t])} | t in pushes :: PushInv(w, account, pushes[t])
  }

  ghost predicate AllOwedInv(w: World, account: Id, queue: map<Id, QueuedMutation>, owed: set<Id>) {
    forall id {:trigger OwedInv(w, account, queue, id)} | id in owed :: OwedInv(w, account, queue, id)
  }

  ghost predicate ClientInv(w: World, cl: Client) {
    && ItemsInv(w.ledger, cl.items)
    && CursorsInv(w.ledger, cl.items, cl.cursors)
    && PullsInv(w, cl.account, cl.items, cl.pulls)
    && PushesInv(w, cl.account, cl.pushes)
    && QueueInv(w, cl.account, cl.queue)
    && AllOwedInv(w, cl.account, cl.queue, cl.owed)
  }

  // What travels.

  /** A recorded outcome answers the mutation issued under its id. */
  predicate Answers(m: Mutation, reply: Reply) {
    match reply
    case Created(item) =>
      && item.At() == m.At()
      && item.revision == m.baseRevision + 1
      && item.ciphertext == m.ciphertext
      && item.envelopeVersion == m.envelopeVersion
      && item.deleted == m.deleted
    case Conflict(_, _, attempted) => attempted == m
    case _ => false
  }

  ghost predicate OutcomesInv(w: World) {
    forall id | id in w.ledger.tables.outcomes :: id in w.issued && Answers(w.issued[id], w.ledger.tables.outcomes[id])
  }

  ghost predicate ReplyInv(w: World, account: Id, m: Mutation, reply: Reply) {
    && w.Issued(account, m)
    && (reply.Created? || reply.Conflict? ==>
          var id := RequestId(account, m.mutationId);
          id in w.ledger.tables.outcomes && w.ledger.tables.outcomes[id] == reply)
  }

  ghost predicate MessagesInv(w: World) {
    && (forall r | r in w.net.mutations :: w.Issued(r.0, r.1))
    && (forall r | r in w.net.replies :: ReplyInv(w, r.0, r.1, r.2))
  }

  ghost predicate FeedsInv(w: World) {
    forall r | r in w.net.pages ::
      r.0 in w.net.feeds && PageInv(w.ledger, w.net.feeds[r.0].vaultId, w.net.feeds[r.0].after, r.1)
  }

  ghost predicate Inv(w: World) {
    && LedgerInv(w.ledger)
    && OutcomesInv(w)
    && MessagesInv(w)
    && FeedsInv(w)
    && (forall req | req in w.net.feeds :: 0 <= w.net.feeds[req].after <= w.ledger.tables.sequence)
    && (forall c {:trigger ClientInv(w, w.clients[c])} | c in w.clients :: ClientInv(w, w.clients[c]))
  }

  // Stability: what others do never breaks a client's or a message's invariant.

  /** The ledger grew, and no id or feed request was reassigned. */
  ghost predicate Extends(w: World, w': World) {
    && Grows(w.ledger, w'.ledger)
    && (forall id | id in w.issued :: id in w'.issued && w'.issued[id] == w.issued[id])
    && (forall req | req in w.net.feeds :: req in w'.net.feeds && w'.net.feeds[req] == w.net.feeds[req])
  }

  /** `items'` is `items` after a put that passed `assertMonotonicPut`. */
  ghost predicate PutStep(l: Ledger, items: map<Key, ItemRecord>, items': map<Key, ItemRecord>, record: ItemRecord) {
    && l.Knows(record)
    && MonotonicPut(items, record)
    && items' == items[record.At() := record]
  }
}

/** Every step of the sync protocol keeps the invariant. */
module SyncPreservation {
  import opened Wrappers
  import opened SyncModel
  import opened SyncLedger
  import opened SyncWorld
  import opened SyncInvariant

  lemma CursorStable(l: Ledger, l': Ledger, items: map<Key, ItemRecord>, vaultId: Id, cursor: int)
    requires Grows(l, l') && CursorInv(l, items, vaultId, cursor)
    ensures CursorInv(l', items, vaultId, cursor)
  {
  }

  lemma ItemsStable(l: Ledger, l': Ledger, items: map<Key, ItemRecord>)
    requires Grows(l, l') && ItemsInv(l, items)
    ensures ItemsInv(l', items)
  {
    forall key | key in items
      ensures l'.Knows(items[key])
    {
      GrowsKnows(l, l', items[key]);
    }
  }

  lemma PageStable(l: Ledger, l': Ledger, vaultId: Id, after: int, page: Page)
    requires Grows(l, l') && PageInv(l, vaultId, after, page)
    ensures PageInv(l', vaultId, after, page)
  {
    forall j | 0 <= j < |page.changes|
      ensures l'.Knows(page.changes[j])
    {
      GrowsKnows(l, l', page.changes[j]);
    }
  }

  lemma PullsStable(w: World, w': World, account: Id, items: map<Key, ItemRecord>, pulls: map<nat, Pull>)
    requires Extends(w, w') && PullsInv(w, account, items, pulls)
    ensures PullsInv(w', account, items, pulls)
  {
    forall t | t in pulls
      ensures PullInv(w', account, items, pulls[t])
    {
      var p := pulls[t];
      assert PullInv(w, account, items, p);
      CursorStable(w.ledger, w'.ledger, items, p.vaultId, After(p.cursor));
      if p.phase.Applying? {
        PageStable(w.ledger, w'.ledger, p.vaultId, After(p.cursor), p.phase.page);
      }
    }
  }

  lemma PushesStable(w: World, w': World, account: Id, pushes: map<nat, Push>)
    requires Extends(w, w') && PushesInv(w, account, pushes)
    ensures PushesInv(w', account, pushes)
  {
    forall t | t in pushes
      ensures PushInv(w', account, pushes[t])
    {
      assert PushInv(w, account, pushes[t]);
    }
  }

  lemma QueueStable(w: World, w': World, account: Id, queue: map<Id, QueuedMutation>, owed: set<Id>)
    requires Extends(w, w') && QueueInv(w, account, queue) && AllOwedInv(w, account, queue, owed)
    ensures QueueInv(w', account, queue) && AllOwedInv(w', account, queue, owed)
  {
    forall id | id in owed
      ensures OwedInv(w', account, queue, id)
    {
      assert OwedInv(w, account, queue, id);
    }
  }

  lemma ClientStable(w: World, w': World, cl: Client)
    requires Extends(w, w') && ClientInv(w, cl)
    ensures ClientInv(w', cl)
  {
    ItemsStable(w.ledger, w'.ledger, cl.items);
    forall v | v in cl.cursors
      ensures CursorInv(w'.ledger, cl.items, v, cl.cursors[v])
    {
      CursorStable(w.ledger, w'.ledger, cl.items, v, cl.cursors[v]);
    }
    PullsStable(w, w', cl.account, cl.items, cl.pulls);
    PushesStable(w, w', cl.account, cl.pushes);
    QueueStable(w, w', cl.account, cl.queue, cl.owed);
  }

  lemma ClientsStable(w: World, w': World)
    requires Extends(w, w') && w'.clients == w.clients
    requires forall c | c in w.clients :: ClientInv(w, w.clients[c])
    ensures forall c | c in w'.clients :: ClientInv(w', w'.clients[c])
  {
    forall c | c in w'.clients
      ensures ClientInv(w', w'.clients[c])
    {
      ClientStable(w, w', w.clients[c]);
    }
  }

  lemma MessagesStable(w: World, w': World)
    requires Extends(w, w') && MessagesInv(w)
    requires w'.net.mutations == w.net.mutations && w'.net.replies == w.net.replies
    ensures MessagesInv(w')
  {
    forall r | r in w'.net.replies
      ensures ReplyInv(w', r.0, r.1, r.2)
    {
      assert ReplyInv(w, r.0, r.1, r.2);
    }
  }

  lemma FeedsStable(w: World, w': World)
    requires Extends(w, w') && FeedsInv(w) && w'.net.pages == w.net.pages
    ensures FeedsInv(w')
  {
    forall r | r in w'.net.pages
      ensures PageInv(w'.ledger, w'.net.feeds[r.0].vaultId, w'.net.feeds[r.0].after, r.1)
    {
      PageStable(w.ledger, w'.ledger, w.net.feeds[r.0].vaultId, w.net.feeds[r.0].after, r.1);
    }
  }

  // Local puts only move forward, so they keep what was established.

  lemma PutKeepsCursor(l: Ledger, items: map<Key, ItemRecord>, items': map<Key, ItemRecord>, record: ItemRecord, vaultId: Id, cursor: int)
    requires LedgerInv(l) && PutStep(l, items, items', record) && CursorInv(l, items, vaultId, cursor)
    ensures CursorInv(l, items', vaultId, cursor)
  {
    KnownIsNotAhead(l, record);
  }

  lemma PutKeepsPull(w: World, account: Id, items: map<Key, ItemRecord>, items': map<Key, ItemRecord>, record: ItemRecord, p: Pull)
    requires LedgerInv(w.ledger) && PutStep(w.ledger, items, items', record) && PullInv(w, account, items, p)
    ensures PullInv(w, account, items', p)
  {
    PutKeepsCursor(w.ledger, items, items', record, p.vaultId, After(p.cursor));
  }

  /** Every part of a client a put does not replace. */
  lemma PutKeepsRest(w: World, cl: Client, items': map<Key, ItemRecord>, record: ItemRecord)
    requires LedgerInv(w.ledger) && ClientInv(w, cl) && PutStep(w.ledger, cl.items, items', record)
    ensures ItemsInv(w.ledger, items')
    ensures CursorsInv(w.ledger, items', cl.cursors)
    ensures PullsInv(w, cl.account, items', cl.pulls)
  {
    forall v | v in cl.cursors
      ensures CursorInv(w.ledger, items', v, cl.cursors[v])
    {
      PutKeepsCursor(w.ledger, cl.items, items', record, v, cl.cursors[v]);
    }
    forall t | t in cl.pulls
      ensures PullInv(w, cl.account, items', cl.pulls[t])
    {
      PutKeepsPull(w, cl.account, cl.items, items', record, cl.pulls[t]);
    }
  }

  /** A page applied in full makes the client exact up to its cursor. */
  lemma AppliedPageIsExact(l: Ledger, items: map<Key, ItemRecord>, vaultId: Id, after: int, page: Page)
    requires LedgerInv(l) && ItemsInv(l, items) && CursorInv(l, items, vaultId, after) && PageInv(l, vaultId, after, page)
    requires forall j | 0 <= j < |page.changes| :: Holds(items, page.changes[j])
    ensures CursorInv(l, items, vaultId, page.nextCursor)
  {
    forall key | key in l.tables.items && key.vaultId == vaultId && l.tables.items[key].sequence <= page.nextCursor
      ensures key in items && items[key] == l.tables.items[key].record
    {
      if l.tables.items[key].sequence > after {
        var j :| 0 <= j < |page.changes| && page.changes[j] == l.tables.items[key].record;
        RowIsKnown(l, key);
        assert Holds(items, page.changes[j]);
        KnownIsNotAhead(l, items[key]);
      }
    }
  }

  /** A fresh page covers every row between its cursors. */
  lemma AnswerIsCovering(l: Ledger, vaultId: Id, after: int, rows: seq<Row>)
    requires LedgerInv(l) && 0 <= after <= l.tables.sequence
    requires IsFeedPage(l.tables, vaultId, after, FEED_LIMIT, rows)
    ensures PageInv(l, vaultId, after, PageOf(rows, after))
  {
    var page := PageOf(rows, after);
    forall j | 0 <= j < |rows|
      ensures page.changes[j].vaultId == vaultId && l.Knows(page.changes[j]) && rows[j].sequence <= l.tables.sequence
    {
      assert IsFeedRow(l.tables, vaultId, after, rows[j]);
      assert RowInv(l, rows[j].record.At());
      RowIsKnown(l, rows[j].record.At());
    }
    forall i, j | 0 <= i < j < |rows|
      ensures page.changes[i].At() != page.changes[j].At()
    {
      assert IsFeedRow(l.tables, vaultId, after, rows[i]) && IsFeedRow(l.tables, vaultId, after, rows[j]);
    }
    forall key | key in l.tables.items && key.vaultId == vaultId && after < l.tables.items[key].sequence <= page.nextCursor
      ensures l.tables.items[key].record in page.changes
    {
      assert l.tables.items[key] in rows;
      var j :| 0 <= j < |rows| && rows[j] == l.tables.items[key];
      assert page.changes[j] == l.tables.items[key].record;
    }
  }

  // Preservation, event by event.

  lemma DeliverKeepsOutcomes(w: World, account: Id, m: Mutation, now: Time)
    requires LedgerInv(w.ledger) && OutcomesInv(w) && w.Issued(account, m)
    ensures OutcomesInv(DeliverStep(w, account, m, now))
  {
  }

  lemma DeliverKeepsMessages(w: World, account: Id, m: Mutation, now: Time)
    requires MessagesInv(w) && w.Issued(account, m) && Grows(w.ledger, Transact(w.ledger, account, m, now))
    ensures MessagesInv(DeliverStep(w, account, m, now))
  {
    var w' := DeliverStep(w, account, m, now);
    forall r | r in w'.net.replies
      ensures ReplyInv(w', r.0, r.1, r.2)
    {
      if r in w.net.replies {
        assert ReplyInv(w, r.0, r.1, r.2);
      }
    }
  }

  lemma DeliverKeepsInv(w: World, account: Id, m: Mutation, now: Time)
    requires Inv(w) && (account, m) in w.net.mutations
    ensures Inv(DeliverStep(w, account, m, now))
  {
    var w' := DeliverStep(w, account, m, now);
    assert w.Issued((account, m).0, (account, m).1);
    TransactGrows(w.ledger, account, m, now);
    TransactKeepsInv(w.ledger, account, m, now);
    DeliverKeepsOutcomes(w, account, m, now);
    DeliverKeepsMessages(w, account, m, now);
    FeedsStable(w, w');
    ClientsStable(w, w');
  }

  lemma BurnKeepsOutcomes(l: Ledger, l': Ledger)
    requires Grows(l, l') && l'.tables.outcomes == l.tables.outcomes
    requires OutcomesKnown(l)
    ensures OutcomesKnown(l')
  {
    forall id | id in l'.tables.outcomes
      ensures OutcomeInv(l', id, l'.tables.outcomes[id])
    {
      GrowsOutcome(l, l', id, l.tables.outcomes[id]);
    }
  }

  lemma BurnKeepsLedger(l: Ledger)
    requires LedgerInv(l)
    ensures var l' := l.(tables := l.tables.(sequence := l.tables.sequence + 1)); LedgerInv(l') && Grows(l, l')
  {
    var l' := l.(tables := l.tables.(sequence := l.tables.sequence + 1));
    assert Grows(l, l');
    UnwrittenRowsStay(l, l');
    BurnKeepsHistory(l, l');
    BurnKeepsOutcomes(l, l');
  }

  lemma BurnKeepsHistory(l: Ledger, l': Ledger)
    requires HistoryInv(l) && l'.history == l.history && l'.tables.outcomes == l.tables.outcomes
    ensures HistoryInv(l')
  {
    forall key: Key, j: nat | j < |l'.Log(key)|
      ensures CommitInv(l', key, j)
    {
      assert CommitInv(l, key, j);
    }
  }

  lemma BurnKeepsInv(w: World)
    requires Inv(w)
    ensures Inv(BurnStep(w)) && Extends(w, BurnStep(w))
  {
    var w' := BurnStep(w);
    assert LedgerInv(w'.ledger) && Grows(w.ledger, w'.ledger) by {
      BurnKeepsLedger(w.ledger);
    }
    LedgerStepKeepsRest(w, w');
  }

  /** A growing ledger keeps everything else. */
  lemma LedgerStepKeepsRest(w: World, w': World)
    requires w' == w.(ledger := w'.ledger) && Grows(w.ledger, w'.ledger)
    requires w'.ledger.tables.outcomes == w.ledger.tables.outcomes
    requires OutcomesInv(w) && MessagesInv(w) && FeedsInv(w)
    requires forall c | c in w.clients :: ClientInv(w, w.clients[c])
    ensures Extends(w, w') && OutcomesInv(w') && MessagesInv(w') && FeedsInv(w')
    ensures forall c | c in w'.clients :: ClientInv(w', w'.clients[c])
  {
    MessagesStable(w, w');
    FeedsStable(w, w');
    ClientsStable(w, w');
  }

  lemma AnswerKeepsInv(w: World, req: nat, rows: seq<Row>)
    requires Inv(w) && CanAnswer(w, req, rows)
    ensures Inv(AnswerStep(w, req, rows))
  {
    var w' := AnswerStep(w, req, rows);
    AnswerIsCovering(w.ledger, w.net.feeds[req].vaultId, w.net.feeds[req].after, rows);
    MessagesStable(w, w');
    ClientsStable(w, w');
  }

  lemma PullsUpdate(w: World, account: Id, items: map<Key, ItemRecord>, pulls: map<nat, Pull>, t: nat, p: Pull)
    requires PullsInv(w, account, items, pulls)
    ensures PullsInv(w, account, items, pulls - {t})
    ensures PullInv(w, account, items, p) ==> PullsInv(w, account, items, pulls[t := p])
  {
  }

  lemma PushesUpdate(w: World, account: Id, pushes: map<nat, Push>, t: nat, p: Push)
    requires PushesInv(w, account, pushes)
    ensures PushesInv(w, account, pushes - {t})
    ensures PushInv(w, account, p) ==> PushesInv(w, account, pushes[t := p])
  {
  }

  lemma QueueUpdate(w: World, account: Id, queue: map<Id, QueuedMutation>, owed: set<Id>, entry: QueuedMutation)
    requires QueueInv(w, account, queue) && AllOwedInv(w, account, queue, owed) && w.Issued(account, entry.mutation)
    ensures QueueInv(w, account, queue[entry.mutation.mutationId := entry])
    ensures AllOwedInv(w, account, queue[entry.mutation.mutationId := entry], owed)
  {
    forall id | id in owed
      ensures OwedInv(w, account, queue[entry.mutation.mutationId := entry], id)
    {
      assert OwedInv(w, account, queue, id);
    }
  }

  lemma QueueRemove(w: World, account: Id, queue: map<Id, QueuedMutation>, owed: set<Id>, id: Id)
    requires QueueInv(w, account, queue) && AllOwedInv(w, account, queue, owed)
    requires id in owed ==> w.ledger.Accepted(RequestId(account, id))
    ensures QueueInv(w, account, queue - {id}) && AllOwedInv(w, account, queue - {id}, owed)
  {
    forall x | x in owed
      ensures OwedInv(w, account, queue - {id}, x)
    {
      assert OwedInv(w, account, queue, x);
    }
  }

  lemma WithdrawKeeps(w: World, account: Id, queue: map<Id, QueuedMutation>, owed: set<Id>, id: Id)
    requires QueueInv(w, account, queue) && AllOwedInv(w, account, queue, owed)
    ensures QueueInv(w, account, queue - {id}) && AllOwedInv(w, account, queue - {id}, owed - {id})
  {
    assert AllOwedInv(w, account, queue, owed - {id});
    QueueRemove(w, account, queue, owed - {id}, id);
  }

  lemma OnReplyKeepsClient(w: World, cl: Client, t: nat, reply: Reply)
    requires LedgerInv(w.ledger) && ClientInv(w, cl) && t in cl.pushes
    requires ReplyInv(w, cl.account, cl.pushes[t].entry.mutation, reply)
    ensures ClientInv(w, OnReply(cl, t, reply))
  {
    var p := cl.pushes[t];
    var cl' := OnReply(cl, t, reply);
    PushesUpdate(w, cl.account, cl.pushes, t, p.(phase := Confirmed));
    if reply.Created? {
      if MonotonicPut(cl.items, reply.item) {
        assert OutcomeInv(w.ledger, RequestId(cl.account, p.Id()), reply);
        assert PushInv(w, cl.account, p.(phase := Confirmed));
        PutKeepsRest(w, cl, cl'.items, reply.item);
      }
    } else {
      var state := if reply.Conflict? then Conflicted else Dirty;
      QueueUpdate(w, cl.account, cl.queue, cl.owed, p.entry.(state := state));
    }
  }

  lemma PutAdvancesPull(w: World, account: Id, items: map<Key, ItemRecord>, p: Pull)
    requires PullInv(w, account, items, p) && p.phase.Applying? && p.phase.applied < |p.phase.page.changes|
    requires Holds(items, p.phase.page.changes[p.phase.applied])
    ensures PullInv(w, account, items, p.(phase := Applying(p.phase.page, p.phase.applied + 1)))
  {
  }

  lemma NextRecordIsKnown(w: World, account: Id, items: map<Key, ItemRecord>, p: Pull)
    requires PullInv(w, account, items, p) && p.phase.Applying? && p.phase.applied < |p.phase.page.changes|
    ensures w.ledger.Knows(p.phase.page.changes[p.phase.applied])
  {
  }

  lemma OnPutKeepsPulls(w: World, cl: Client, t: nat)
    requires LedgerInv(w.ledger) && ClientInv(w, cl) && Ready(cl, PullPut(t))
    ensures var cl' := OnPut(cl, t);
            && ItemsInv(w.ledger, cl'.items)
            && CursorsInv(w.ledger, cl'.items, cl'.cursors)
            && PullsInv(w, cl'.account, cl'.items, cl.pulls)
  {
    var p := cl.pulls[t];
    var record := p.phase.page.changes[p.phase.applied];
    if record.vaultId == p.vaultId && MonotonicPut(cl.items, record) {
      NextRecordIsKnown(w, cl.account, cl.items, p);
      PutKeepsRest(w, cl, OnPut(cl, t).items, record);
    }
  }

  lemma OnPutKeepsClient(w: World, cl: Client, t: nat)
    requires LedgerInv(w.ledger) && ClientInv(w, cl) && Ready(cl, PullPut(t))
    ensures ClientInv(w, OnPut(cl, t))
  {
    OnPutKeepsPulls(w, cl, t);
    OnPutAdvances(w, cl, t, OnPut(cl, t));
  }

  lemma OnPutAdvances(w: World, cl: Client, t: nat, cl': Client)
    requires Ready(cl, PullPut(t)) && cl' == OnPut(cl, t)
    requires PullsInv(w, cl.account, cl'.items, cl.pulls)
    ensures PullsInv(w, cl.account, cl'.items, cl'.pulls)
  {
    var p := cl.pulls[t];
    assert PullInv(w, cl.account, cl'.items, p);
    PullsUpdate(w, cl.account, cl'.items, cl.pulls, t, p);
    if t in cl'.pulls {
      PutAdvancesPull(w, cl.account, cl'.items, p);
    }
  }

  lemma FullPageIsExact(w: World, cl: Client, t: nat)
    requires LedgerInv(w.ledger) && ClientInv(w, cl) && Ready(cl, PullCommit(t))
    ensures CursorInv(w.ledger, cl.items, cl.pulls[t].vaultId, cl.pulls[t].phase.page.nextCursor)
  {
    var p := cl.pulls[t];
    assert PullInv(w, cl.account, cl.items, p);
    AppliedPageIsExact(w.ledger, cl.items, p.vaultId, After(p.cursor), p.phase.page);
  }

  lemma OnCommitKeepsClient(w: World, cl: Client, t: nat)
    requires ClientInv(w, cl) && Ready(cl, PullCommit(t))
    requires CursorInv(w.ledger, cl.items, cl.pulls[t].vaultId, cl.pulls[t].phase.page.nextCursor)
    ensures ClientInv(w, OnCommit(cl, t))
  {
    var cl' := OnCommit(cl, t);
    OnCommitAdvances(w, cl, t, cl');
    assert cl' == cl.(cursors := cl'.cursors, pulls := cl'.pulls);
  }

  lemma OnCommitAdvances(w: World, cl: Client, t: nat, cl': Client)
    requires Ready(cl, PullCommit(t)) && cl' == OnCommit(cl, t)
    requires CursorInv(w.ledger, cl.items, cl.pulls[t].vaultId, cl.pulls[t].phase.page.nextCursor)
    requires CursorsInv(w.ledger, cl.items, cl.cursors) && PullsInv(w, cl.account, cl.items, cl.pulls)
    ensures CursorsInv(w.ledger, cl.items, cl'.cursors) && PullsInv(w, cl.account, cl.items, cl'.pulls)
  {
    var p := cl.pulls[t];
    var p' := Pull(p.vaultId, Some(p.phase.page.nextCursor), if p.pagesLeft > 0 then p.pagesLeft - 1 else 0, Asking);
    assert PullInv(w, cl.account, cl.items, p');
    PullsUpdate(w, cl.account, cl.items, cl.pulls, t, p');
  }

  /** The steps of a push other than receiving a reply. */
  lemma PushStepKeepsClient(w: World, cl: Client, a: Action)
    requires ClientInv(w, cl) && Enabled(w, cl, a)
    requires a.PushStart? || a.PushSend? || a.PushDequeue? || a.PushRefused? || a.PushLost?
    ensures ClientInv(w, ClientStep(cl, a))
  {
    var entry := if a.PushStart? then a.entry else cl.pushes[a.task].entry;
    if !a.PushStart? {
      assert PushInv(w, cl.account, cl.pushes[a.task]);
    }
    PushesUpdate(w, cl.account, cl.pushes, a.task, Push(entry, if a.PushSend? then Sent else Starting));
    if a.PushDequeue? {
      QueueRemove(w, cl.account, cl.queue, cl.owed, cl.pushes[a.task].Id());
    } else if !a.PushSend? {
      QueueUpdate(w, cl.account, cl.queue, cl.owed, ClientStep(cl, a).queue[entry.mutation.mutationId]);
    }
  }

  /** The steps of a pull before it applies a page. */
  lemma PullStepKeepsClient(w: World, cl: Client, a: Action, p': Pull)
    requires ClientInv(w, cl) && Ready(cl, a) && PullInv(w, cl.account, cl.items, p')
    requires a.PullStart? || a.PullSend? || a.PullReceive?
    requires ClientStep(cl, a) == cl.(pulls := cl.pulls[a.task := p'])
    ensures ClientInv(w, ClientStep(cl, a))
  {
    PullsUpdate(w, cl.account, cl.items, cl.pulls, a.task, p');
  }

  lemma EnqueueKeepsClient(w: World, cl: Client, m: Mutation)
    requires ClientInv(w, cl) && w.Issued(cl.account, m)
    ensures ClientInv(w, ClientStep(cl, Enqueue(m)))
  {
    var entry := QueuedMutation(m, Dirty, 0, None);
    QueueUpdate(w, cl.account, cl.queue, cl.owed, entry);
    assert OwedInv(w, cl.account, ClientStep(cl, Enqueue(m)).queue, m.mutationId);
  }

  /** The world's part of a client step: an id, a request, but no change for others. */
  lemma ActExtends(w: World, c: nat, a: Action)
    requires Inv(w) && c in w.clients && Enabled(w, w.clients[c], a)
    ensures Extends(w, ActStep(w, c, a))
    ensures Inv(ActStep(w, c, a).(clients := w.clients))
  {
    var cl := w.clients[c];
    var w' := ActStep(w, c, a).(clients := w.clients);
    assert ClientInv(w, cl);
    assert OutcomesInv(w');
    if a.PushSend? {
      assert PushInv(w, cl.account, cl.pushes[a.task]);
    } else if a.PullSend? {
      assert PullInv(w, cl.account, cl.items, cl.pulls[a.task]);
      FeedsStable(w, w');
      MessagesStable(w, w');
    } else {
      FeedsStable(w, w');
      MessagesStable(w, w');
    }
    ClientsStable(w, w');
  }

  /** What a received message guarantees. */
  lemma ReceivedIsValid(w: World, c: nat, a: Action)
    requires Inv(w) && c in w.clients && Enabled(w, w.clients[c], a)
    ensures a.PushReply? ==> ReplyInv(w, w.clients[c].account, w.clients[c].pushes[a.task].entry.mutation, a.reply)
    ensures a.PullReceive? ==>
              PullInv(w, w.clients[c].account, w.clients[c].items, w.clients[c].pulls[a.task].(phase := Applying(a.page, 0)))
  {
    var cl := w.clients[c];
    assert ClientInv(w, cl);
    if a.PushReply? {
      var r := (cl.account, cl.pushes[a.task].entry.mutation, a.reply);
      assert r in w.net.replies;
      assert ReplyInv(w, r.0, r.1, r.2);
    } else if a.PullReceive? {
      assert PullInv(w, cl.account, cl.items, cl.pulls[a.task]);
      var r := (cl.pulls[a.task].phase.request, a.page);
      assert r in w.net.pages;
    }
  }

  lemma FirstCursorInv(l: Ledger, items: map<Key, ItemRecord>, vaultId: Id)
    requires LedgerInv(l)
    ensures CursorInv(l, items, vaultId, 0)
  {
    forall key | key in l.tables.items
      ensures l.tables.items[key].sequence > 0
    {
      assert RowInv(l, key);
    }
  }

  /** `w1` is the world after the step, before the client's own change. */
  lemma ClientStepKeepsClient(w1: World, cl: Client, a: Action)
    requires LedgerInv(w1.ledger) && ClientInv(w1, cl) && Ready(cl, a)
    requires a.Enqueue? ==> w1.Issued(cl.account, a.mutation)
    requires a.PushStart? ==> w1.Issued(cl.account, a.entry.mutation)
    requires a.PushReply? ==> ReplyInv(w1, cl.account, cl.pushes[a.task].entry.mutation, a.reply)
    requires a.PullSend? ==> a.request in w1.net.feeds
                             && w1.net.feeds[a.request] == FeedRequest(cl.account, cl.pulls[a.task].vaultId, After(cl.pulls[a.task].cursor))
    requires a.PullReceive? ==> PullInv(w1, cl.account, cl.items, cl.pulls[a.task].(phase := Applying(a.page, 0)))
    ensures ClientInv(w1, ClientStep(cl, a))
  {
    match a {
      case Enqueue(m) => EnqueueKeepsClient(w1, cl, m);
      case Withdraw(id) => WithdrawKeeps(w1, cl.account, cl.queue, cl.owed, id);
      case PushReply(t, reply) => OnReplyKeepsClient(w1, cl, t, reply);
      case PullStart(t, v, maxPages) =>
        FirstCursorInv(w1.ledger, cl.items, v);
        PullStepKeepsClient(w1, cl, a, ClientStep(cl, a).pulls[t]);
      case PullSend(t, _) =>
        assert PullInv(w1, cl.account, cl.items, cl.pulls[t]);
        PullStepKeepsClient(w1, cl, a, ClientStep(cl, a).pulls[t]);
      case PullReceive(t, _) => PullStepKeepsClient(w1, cl, a, ClientStep(cl, a).pulls[t]);
      case PullPut(t) => OnPutKeepsClient(w1, cl, t);
      case PullCommit(t) =>
        FullPageIsExact(w1, cl, t);
        OnCommitKeepsClient(w1, cl, t);
      case Abandon(t) =>
        assert PullsInv(w1, cl.account, cl.items, cl.pulls - {t}) && PushesInv(w1, cl.account, cl.pushes - {t});
      case _ => PushStepKeepsClient(w1, cl, a);
    }
  }

  lemma StepKeepsClient(w: World, c: nat, a: Action)
    requires Inv(w) && c in w.clients && Enabled(w, w.clients[c], a)
    ensures ClientInv(ActStep(w, c, a), ClientStep(w.clients[c], a))
  {
    var cl := w.clients[c];
    var w1 := ActStep(w, c, a).(clients := w.clients);
    var w' := ActStep(w, c, a);
    ActExtends(w, c, a);
    ReceivedIsValid(w, c, a);
    assert ClientInv(w1, cl);
    if a.PullReceive? {
      PullsStable(w, w1, cl.account, cl.items, map[0 := cl.pulls[a.task].(phase := Applying(a.page, 0))]);
    }
    ClientStepKeepsClient(w1, cl, a);
    ClientStable(w1, w', ClientStep(cl, a));
  }

  lemma ActKeepsInv(w: World, c: nat, a: Action)
    requires Inv(w) && c in w.clients && Enabled(w, w.clients[c], a)
    ensures Inv(ActStep(w, c, a))
  {
    var w' := ActStep(w, c, a);
    ActExtends(w, c, a);
    StepKeepsClient(w, c, a);
    forall d | d in w'.clients
      ensures ClientInv(w', w'.clients[d])
    {
      if d != c {
        ClientStable(w, w', w.clients[d]);
      }
    }
  }

  lemma StepKeepsInv(w: World, e: Event)
    requires Inv(w)
    ensures Inv(Step(w, e))
    ensures Extends(w, Step(w, e))
  {
    match e {
      case Deliver(account, m, now) =>
        if (account, m) in w.net.mutations {
          DeliverKeepsInv(w, account, m, now);
          TransactGrows(w.ledger, account, m, now);
        }
      case BurnSequence =>
        BurnKeepsInv(w);
      case AnswerFeed(req, rows) =>
        if CanAnswer(w, req, rows) {
          AnswerKeepsInv(w, req, rows);
        }
      case Act(c, a) =>
        if c in w.clients && Enabled(w, w.clients[c], a) {
          ActKeepsInv(w, c, a);
          ActExtends(w, c, a);
        }
    }
  }
}
