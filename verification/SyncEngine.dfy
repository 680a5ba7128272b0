/** The client's repository and engine (`packages/sdk/src/repository.ts`, `sync-state-machine.ts`). */
module SyncEngine {
  import opened Wrappers
  import opened SyncModel
  import opened SyncLedger
  import opened SyncWorld
  import opened SyncInvariant
  import opened SyncPreservation
  import opened SyncFeed
  import opened SyncServing

  class InMemoryLocalRepository {
    var items: map<Key, ItemRecord>
    var cursors: map<Id, int>
    var queue: map<Id, QueuedMutation>

    constructor ()
      ensures items == map[] && cursors == map[] && queue == map[]
    {
      items, cursors, queue := map[], map[], map[];
    }

    /** False stands for the thrown `RecordConflictError`. */
    method PutItem(item: ItemRecord) returns (stored: bool)
      modifies this`items
      ensures stored == MonotonicPut(old(items), item)
      ensures items == if stored then old(items)[item.At() := item] else old(items)
    {
      stored := MonotonicPut(items, item);
      if stored {
        items := items[item.At() := item];
      }
    }

    method GetCursor(vaultId: Id) returns (cursor: Option<int>)
      ensures cursor == Stored(cursors, vaultId)
    {
      cursor := if vaultId in cursors then Some(cursors[vaultId]) else None;
    }

    method SetCursor(vaultId: Id, cursor: int)
      modifies this`cursors
      ensures cursors == old(cursors)[vaultId := cursor]
    {
      cursors := cursors[vaultId := cursor];
    }

    method EnqueueMutation(entry: QueuedMutation)
      modifies this`queue
      ensures queue == old(queue)[entry.mutation.mutationId := entry]
    {
      queue := queue[entry.mutation.mutationId := entry];
    }

    method DequeueMutation(mutationId: Id)
      modifies this`queue
      ensures queue == old(queue) - {mutationId}
    {
      queue := queue - {mutationId};
    }
  }

  datatype PullOutcome =
    | PullApplied(pagesApplied: nat, itemsApplied: nat, cursor: Option<int>)
    | PullError(itemsApplied: nat)

  /** What the network does to one request. */
  datatype Delivery = RequestLost | ResponseLost | Delivered

  datatype PushOutcome = Applied(item: ItemRecord) | InConflict(conflict: Reply) | RetryLater(nextRetryAt: Time) | Thrown

  /** `retryDelayMs`. */
  function RetryDelayMs(attempts: int, baseMs: nat, maxMs: nat): nat {
    var raw := baseMs * Power2(if attempts > 1 then attempts - 1 else 0);
    if raw < maxMs then raw else maxMs
  }

  function Power2(n: nat): nat {
    if n == 0 then 1 else 2 * Power2(n - 1)
  }

  /** What a run of `pushOne` leaves in a client that does nothing else meanwhile. */
  function AfterPush(cl: Client, t: nat, entry: QueuedMutation, reply: Option<Reply>, retryAt: Time): Client
    requires Idle(cl, t)
  {
    var sent := ClientStep(ClientStep(cl, PushStart(t, entry)), PushSend(t));
    if reply.None? then
      ClientStep(sent, PushLost(t, retryAt))
    else
      var heard := ClientStep(sent, PushReply(t, reply.value));
      if t in heard.pushes then ClientStep(heard, PushDequeue(t)) else heard
  }

  /** The queue entry a `pushOne` leaves; None is a dequeued entry. */
  function EntryAfter(entry: QueuedMutation, items: map<Key, ItemRecord>, reply: Option<Reply>, retryAt: Time): Option<QueuedMutation> {
    match reply
    case None => Some(entry.(state := Retryable, attempts := entry.attempts + 1, nextRetryAt := Some(retryAt)))
    case Some(Created(item)) => if MonotonicPut(items, item) then None else Some(entry.(state := Syncing))
    case Some(Conflict(_, _, _)) => Some(entry.(state := Conflicted))
    case Some(_) => Some(entry.(state := Dirty))
  }

  /** What the client hears: nothing if the request or the response was lost. */
  function Heard(t: Tables, account: Id, m: Mutation, delivery: Delivery, now: Time): Option<Reply> {
    if delivery == Delivered then Some(SyncModel.ApplyMutation(t, account, m, now).1) else None
  }

  /** The server's tables and the client's stores, as one `pushOne` finds and leaves them. */
  datatype Stores = Stores(tables: Tables, items: map<Key, ItemRecord>, queue: map<Id, QueuedMutation>)

  /** One `pushAll`: the entries it is to try in order, what the network does to the k-th request
      and when, and the engine's backoff. */
  datatype Round = Round(account: Id, due: seq<QueuedMutation>, network: nat -> (Delivery, Time), baseMs: nat, maxMs: nat)
  {
    /** What the k-th try hears. */
    function HeardAt(s: Stores, k: nat): Option<Reply>
      requires k < |due|
    {
      Heard(s.tables, account, due[k].mutation, network(k).0, network(k).1)
    }

    function RetryAt(k: nat): Time
      requires k < |due|
    {
      network(k).1 + RetryDelayMs(due[k].attempts + 1, baseMs, maxMs)
    }

    /** The entry it leaves; None is a dequeued one. */
    function LeftAt(s: Stores, k: nat): Option<QueuedMutation>
      requires k < |due|
    {
      EntryAfter(due[k], s.items, HeardAt(s, k), RetryAt(k))
    }

    function Try(s: Stores, k: nat): Stores
      requires k < |due|
    {
      var id, left := due[k].mutation.mutationId, LeftAt(s, k);
      Stores(
        if network(k).0 == RequestLost then s.tables else SyncModel.ApplyMutation(s.tables, account, due[k].mutation, network(k).1).0,
        if left.None? then s.items[HeardAt(s, k).value.item.At() := HeardAt(s, k).value.item] else s.items,
        if left.Some? then s.queue[id := left.value] else s.queue - {id})
    }

    /** After the first n tries. */
    function After(s: Stores, n: nat): Stores
      requires n <= |due|
    {
      if n == 0 then s else Try(After(s, n - 1), n - 1)
    }

    /** How the k-th try ends. */
    function OutcomeAt(s: Stores, k: nat): PushOutcome
      requires k < |due|
    {
      var before := After(s, k);
      var left := LeftAt(before, k);
      if left.None? then Applied(HeardAt(before, k).value.item)
      else if left.value.state == Retryable then RetryLater(RetryAt(k))
      else if left.value.state == Conflicted then InConflict(HeardAt(before, k).value)
      else Thrown
    }
  }

  predicate LeftIn(queue: map<Id, QueuedMutation>, id: Id, left: Option<QueuedMutation>) {
    if left.Some? then id in queue && queue[id] == left.value else id !in queue
  }

  /** The entry of the k-th try stands in the queue as the reply to that try made it. */
  ghost predicate LeftByTry(round: Round, start: Stores, k: nat, queue: map<Id, QueuedMutation>)
    requires k < |round.due|
  {
    LeftIn(queue, round.due[k].mutation.mutationId, round.LeftAt(round.After(start, k), k))
  }

  lemma TryLeaves(round: Round, start: Stores, k: nat)
    requires k < |round.due|
    ensures var before, after := round.After(start, k).queue, round.After(start, k + 1).queue;
            LeftByTry(round, start, k, after) && SameExcept(before, after, {round.due[k].mutation.mutationId})
  {
    hide EntryAfter, Heard;
  }

  lemma LaterTryLeaves(round: Round, start: Stores, k: nat, n: nat)
    requires k < n < |round.due| && DistinctIds(round.due) && LeftByTry(round, start, k, round.After(start, n).queue)
    ensures LeftByTry(round, start, k, round.After(start, n + 1).queue)
  {
    TryLeaves(round, start, n);
    hide EntryAfter, Heard;
  }

  /** After n tries each tried entry is what the reply to its own try made of it, and no other entry changed. */
  lemma {:induction false} TriesLeave(round: Round, start: Stores, n: nat)
    requires n <= |round.due| && DistinctIds(round.due)
    ensures forall k | 0 <= k < n :: LeftByTry(round, start, k, round.After(start, n).queue)
    ensures SameExcept(start.queue, round.After(start, n).queue, IdsOf(round.due[..n]))
    decreases n
  {
    if n > 0 {
      TriesLeave(round, start, n - 1);
      TryLeaves(round, start, n - 1);
      IdsOfSnoc(round.due, n - 1);
      KeptElsewhere(start.queue, round.After(start, n - 1).queue, round.After(start, n).queue,
                    IdsOf(round.due[..n - 1]), round.due[n - 1].mutation.mutationId);
      hide LeftByTry, SameExcept, IdsOf, DistinctIds;
      forall k | 0 <= k < n - 1
        ensures LeftByTry(round, start, k, round.After(start, n).queue)
      {
        LaterTryLeaves(round, start, k, n - 1);
      }
    }
  }

  lemma TryKeepsMutation(round: Round, start: Stores, k: nat, queue: map<Id, QueuedMutation>)
    requires k < |round.due| && LeftByTry(round, start, k, queue)
    ensures round.due[k].mutation.mutationId in queue ==> IsQueued(queue, round.due[k].mutation)
    ensures round.OutcomeAt(start, k).Thrown? ==> IsQueued(queue, round.due[k].mutation)
  {
    hide Heard;
  }

  lemma TriesKeepMutations(round: Round, start: Stores, n: nat)
    requires n <= |round.due| && DistinctIds(round.due)
    ensures Tried(start.queue, round.After(start, n).queue, round.due, n)
    ensures n > 0 && round.OutcomeAt(start, n - 1).Thrown? ==> IsQueued(round.After(start, n).queue, round.due[n - 1].mutation)
  {
    TriesLeave(round, start, n);
    var queue := round.After(start, n).queue;
    hide LeftByTry, IdsOf, SameExcept, DistinctIds, IsQueued;
    forall k | 0 <= k < n
      ensures round.due[k].mutation.mutationId in queue ==> IsQueued(queue, round.due[k].mutation)
      ensures round.OutcomeAt(start, k).Thrown? ==> IsQueued(queue, round.due[k].mutation)
    {
      TryKeepsMutation(round, start, k, queue);
    }
  }

  lemma UpdateTwice<K, V>(m: map<K, V>, key: K, first: V, second: V)
    ensures m[key := first][key := second] == m[key := second]
    ensures m[key := first] - {key} == m - {key}
  {
  }

  lemma SentPush(cl: Client, t: nat, entry: QueuedMutation)
    requires Idle(cl, t)
    ensures ClientStep(ClientStep(cl, PushStart(t, entry)), PushSend(t))
         == cl.(queue := cl.queue[entry.mutation.mutationId := entry.(state := Syncing)], pushes := cl.pushes[t := Push(entry, Sent)])
  {
    UpdateTwice(cl.pushes, t, Push(entry, Starting), Push(entry, Sent));
  }

  predicate Leaves(cl: Client, cl': Client, id: Id, left: Option<QueuedMutation>, reply: Option<Reply>)
    requires left.None? ==> reply.Some? && reply.value.Created?
  {
    && cl'.queue == (if left.Some? then cl.queue[id := left.value] else cl.queue - {id})
    && cl'.items == (if left.None? then cl.items[reply.value.item.At() := reply.value.item] else cl.items)
    && cl'.cursors == cl.cursors
    && cl'.pulls == cl.pulls
    && cl'.pushes == cl.pushes
  }

  lemma AfterReplyLeaves(cl: Client, sent: Client, t: nat, entry: QueuedMutation, item: ItemRecord)
    requires Idle(cl, t)
    requires sent == cl.(queue := cl.queue[entry.mutation.mutationId := entry.(state := Syncing)], pushes := cl.pushes[t := Push(entry, Sent)])
    requires MonotonicPut(cl.items, item)
    ensures var heard := ClientStep(sent, PushReply(t, Created(item)));
            && t in heard.pushes && heard.pushes[t] == Push(entry, Confirmed)
            && Leaves(cl, ClientStep(heard, PushDequeue(t)), entry.mutation.mutationId, None, Some(Created(item)))
  {
    UpdateTwice(cl.queue, entry.mutation.mutationId, entry.(state := Syncing), entry);
    UpdateTwice(cl.pushes, t, Push(entry, Sent), Push(entry, Confirmed));
    UpdateTwice(cl.pushes, t, Push(entry, Confirmed), Push(entry, Confirmed));
    assert cl.pushes - {t} == cl.pushes;
  }

  /** The steps of the protocol leave exactly the entry and items `pushOne` leaves. */
  lemma AfterPushLeaves(cl: Client, t: nat, entry: QueuedMutation, reply: Option<Reply>, retryAt: Time)
    requires Idle(cl, t)
    ensures Leaves(cl, AfterPush(cl, t, entry, reply, retryAt), entry.mutation.mutationId, EntryAfter(entry, cl.items, reply, retryAt), reply)
  {
    hide MonotonicPut;
    var id := entry.mutation.mutationId;
    var sent := ClientStep(ClientStep(cl, PushStart(t, entry)), PushSend(t));
    SentPush(cl, t, entry);
    var left := EntryAfter(entry, cl.items, reply, retryAt);
    if left.None? {
      AfterReplyLeaves(cl, sent, t, entry, reply.value.item);
    } else {
      UpdateTwice(cl.queue, id, entry.(state := Syncing), left.value);
      UpdateTwice(cl.pushes, t, Push(entry, Sent), Push(entry, Sent));
      assert cl.pushes - {t} == cl.pushes;
    }
  }

  /** The two maps agree on every other vault. */
  ghost predicate SameElsewhere(items: map<Key, ItemRecord>, items': map<Key, ItemRecord>, vaultId: Id) {
    forall key: Key | key.vaultId != vaultId ::
      && (key in items' <==> key in items)
      && (key in items' ==> items'[key] == items[key])
  }

  /** Whatever the client was exact about, it still is. */
  ghost predicate KeepsCursors(l: Ledger, items: map<Key, ItemRecord>, items': map<Key, ItemRecord>) {
    forall v, cursor {:trigger CursorInv(l, items', v, cursor)} | CursorInv(l, items, v, cursor) :: CursorInv(l, items', v, cursor)
  }

  lemma PutKeepsCursors(l: Ledger, first: map<Key, ItemRecord>, items: map<Key, ItemRecord>, items': map<Key, ItemRecord>, record: ItemRecord)
    requires LedgerInv(l) && PutStep(l, items, items', record) && KeepsCursors(l, first, items)
    ensures KeepsCursors(l, first, items')
  {
    forall v, cursor | CursorInv(l, first, v, cursor)
      ensures CursorInv(l, items', v, cursor)
    {
      assert CursorInv(l, items, v, cursor);
      PutKeepsCursor(l, items, items', record, v, cursor);
    }
  }

  predicate HoldsFirst(items: map<Key, ItemRecord>, page: Page, count: nat) {
    count <= |page.changes| && forall j | 0 <= j < count :: Holds(items, page.changes[j])
  }

  lemma PutKeepsHeld(items: map<Key, ItemRecord>, items': map<Key, ItemRecord>, page: Page, i: nat)
    requires HoldsFirst(items, page, i) && i < |page.changes| && MonotonicPut(items, page.changes[i])
    requires items' == items[page.changes[i].At() := page.changes[i]]
    ensures HoldsFirst(items', page, i + 1)
  {
  }

  /** The items after records are put one by one, and whether each put passes. */
  function PutAll(items: map<Key, ItemRecord>, changes: seq<ItemRecord>): map<Key, ItemRecord> {
    if changes == [] then items
    else
      var last := changes[|changes| - 1];
      PutAll(items, changes[..|changes| - 1])[last.At() := last]
  }

  predicate PutsPass(items: map<Key, ItemRecord>, changes: seq<ItemRecord>) {
    forall j | 0 <= j < |changes| :: PutPasses(items, changes, j)
  }

  predicate PutPasses(items: map<Key, ItemRecord>, changes: seq<ItemRecord>, j: nat)
    requires j < |changes|
  {
    MonotonicPut(PutAll(items, changes[..j]), changes[j])
  }

  lemma PutAllSnoc(items: map<Key, ItemRecord>, changes: seq<ItemRecord>, j: nat)
    requires j < |changes|
    ensures PutAll(items, changes[..j + 1]) == PutAll(items, changes[..j])[changes[j].At() := changes[j]]
  {
    assert changes[..j + 1][..j] == changes[..j];
  }

  /** After the first `count` records of a page. */
  ghost predicate PartlyApplied(
    l: Ledger, first: map<Key, ItemRecord>, items: map<Key, ItemRecord>, vaultId: Id, page: Page, count: nat)
  {
    ItemsInv(l, items) && KeepsCursors(l, first, items) && HoldsFirst(items, page, count) && SameElsewhere(first, items, vaultId)
  }

  lemma PageStart(l: Ledger, items: map<Key, ItemRecord>, vaultId: Id, page: Page)
    requires ItemsInv(l, items)
    ensures PartlyApplied(l, items, items, vaultId, page, 0)
  {
  }

  /** The next record passes the vault check and `putItem`, and is then held. */
  lemma PageStep(
    l: Ledger, first: map<Key, ItemRecord>, items: map<Key, ItemRecord>, vaultId: Id, after: int, page: Page, rows: seq<Row>, i: nat)
    requires LedgerInv(l) && IsFeedPage(l.tables, vaultId, after, FEED_LIMIT, rows) && page == PageOf(rows, after)
    requires i < |page.changes| && PartlyApplied(l, first, items, vaultId, page, i)
    ensures var change := page.changes[i];
            && change.vaultId == vaultId && MonotonicPut(items, change)
            && PartlyApplied(l, first, items[change.At() := change], vaultId, page, i + 1)
  {
    var change := page.changes[i];
    var items' := items[change.At() := change];
    CurrentRecordIsStorable(l, vaultId, after, rows, i, items);
    PutKeepsCursors(l, first, items, items', change);
    PutKeepsHeld(items, items', page, i);
  }

  lemma PageEnd(
    l: Ledger, first: map<Key, ItemRecord>, items: map<Key, ItemRecord>, vaultId: Id, after: int, page: Page, rows: seq<Row>)
    requires LedgerInv(l) && IsFeedPage(l.tables, vaultId, after, FEED_LIMIT, rows) && page == PageOf(rows, after)
    requires CursorInv(l, first, vaultId, after) && PartlyApplied(l, first, items, vaultId, page, |page.changes|)
    ensures ItemsInv(l, items) && CursorInv(l, items, vaultId, page.nextCursor)
    ensures KeepsCursors(l, first, items) && SameElsewhere(first, items, vaultId)
  {
    AnswerIsCovering(l, vaultId, after, rows);
    assert CursorInv(l, items, vaultId, after);
    AppliedPageIsExact(l, items, vaultId, after, page);
  }

  /** So far the records were put one by one, and every put passed. */
  ghost predicate PartlyPut(l: Ledger, first: map<Key, ItemRecord>, items: map<Key, ItemRecord>, vaultId: Id, page: Page, count: nat) {
    && PartlyApplied(l, first, items, vaultId, page, count)
    && count <= |page.changes|
    && items == PutAll(first, page.changes[..count])
    && forall j | 0 <= j < count :: PutPasses(first, page.changes, j)
  }

  lemma PagePutStart(l: Ledger, items: map<Key, ItemRecord>, vaultId: Id, page: Page)
    requires ItemsInv(l, items)
    ensures PartlyPut(l, items, items, vaultId, page, 0)
  {
    PageStart(l, items, vaultId, page);
  }

  lemma PagePutStep(
    l: Ledger, first: map<Key, ItemRecord>, items: map<Key, ItemRecord>, vaultId: Id, after: int, page: Page, rows: seq<Row>, i: nat)
    requires LedgerInv(l) && IsFeedPage(l.tables, vaultId, after, FEED_LIMIT, rows) && page == PageOf(rows, after)
    requires i < |page.changes| && PartlyPut(l, first, items, vaultId, page, i)
    ensures var change := page.changes[i];
            && change.vaultId == vaultId && MonotonicPut(items, change)
            && PartlyPut(l, first, items[change.At() := change], vaultId, page, i + 1)
  {
    hide LedgerInv, IsFeedPage, PartlyApplied, MonotonicPut, PutAll;
    PageStep(l, first, items, vaultId, after, page, rows, i);
    PutAllSnoc(first, page.changes, i);
  }

  lemma PagePutEnd(
    l: Ledger, first: map<Key, ItemRecord>, items: map<Key, ItemRecord>, vaultId: Id, after: int, page: Page, rows: seq<Row>)
    requires LedgerInv(l) && IsFeedPage(l.tables, vaultId, after, FEED_LIMIT, rows) && page == PageOf(rows, after)
    requires CursorInv(l, first, vaultId, after) && PartlyPut(l, first, items, vaultId, page, |page.changes|)
    ensures ItemsInv(l, items) && CursorInv(l, items, vaultId, page.nextCursor)
    ensures KeepsCursors(l, first, items) && SameElsewhere(first, items, vaultId)
    ensures items == PutAll(first, page.changes) && PutsPass(first, page.changes)
  {
    hide LedgerInv, IsFeedPage, CursorInv, PartlyApplied, MonotonicPut, PutAll, PutPasses;
    assert page.changes[..|page.changes|] == page.changes;
    PageEnd(l, first, items, vaultId, after, page, rows);
  }

  lemma SameElsewhereReflexive(items: map<Key, ItemRecord>, vaultId: Id)
    ensures SameElsewhere(items, items, vaultId)
  {
  }

  lemma SameElsewhereTransitive(a: map<Key, ItemRecord>, b: map<Key, ItemRecord>, c: map<Key, ItemRecord>, vaultId: Id)
    requires SameElsewhere(a, b, vaultId) && SameElsewhere(b, c, vaultId)
    ensures SameElsewhere(a, c, vaultId)
  {
  }

  lemma KeepsAllCursors(l: Ledger, items: map<Key, ItemRecord>, items': map<Key, ItemRecord>, cursors: map<Id, int>)
    requires KeepsCursors(l, items, items') && CursorsInv(l, items, cursors)
    ensures CursorsInv(l, items', cursors)
  {
    forall v | v in cursors
      ensures CursorInv(l, items', v, cursors[v])
    {
      assert CursorInv(l, items, v, cursors[v]);
    }
  }

  /** The counters of `pull` after some pages, of n rows above the first cursor. */
  predicate Counted(n: nat, pages: nat, items: nat, madeProgress: bool) {
    && items == Min(n, 100 * pages)
    && (if madeProgress then pages == 0 || 100 * (pages - 1) < n
        else 0 < pages && n <= 100 * (pages - 1) && (pages == 1 || 100 * (pages - 2) < n))
  }

  lemma CountedStep(n: nat, pages: nat, items: nat, taken: nat)
    requires Counted(n, pages, items, true) && taken == Min(FEED_LIMIT, n - items)
    ensures Counted(n, pages + 1, items + taken, 0 < taken)
  {
  }

  lemma CountedEnd(n: nat, pages: nat, items: nat, madeProgress: bool, maxPages: nat)
    requires Counted(n, pages, items, madeProgress) && pages <= maxPages && (pages == maxPages || !madeProgress)
    ensures pages == Min(maxPages, (n + 99) / 100 + 1)
    ensures items == Min(n, 100 * maxPages)
    ensures n <= 100 * maxPages <==> n == items
  {
  }

  class Engine {
    const repo: InMemoryLocalRepository
    const baseMs: nat
    const maxMs: nat

    constructor (repo: InMemoryLocalRepository, baseMs: nat, maxMs: nat)
      ensures this.repo == repo && this.baseMs == baseMs && this.maxMs == maxMs
    {
      this.repo, this.baseMs, this.maxMs := repo, baseMs, maxMs;
    }

    method EnqueueEdit(m: Mutation)
      modifies repo`queue
      ensures repo.queue == old(repo.queue)[m.mutationId := QueuedMutation(m, Dirty, 0, None)]
    {
      repo.EnqueueMutation(QueuedMutation(m, Dirty, 0, None));
    }

    /** `pushOne` ends as the protocol's steps say, and the server ran at most the one transaction. */
    method PushOne(server: SyncServer, account: Id, entry: QueuedMutation, delivery: Delivery, now: Time)
      returns (outcome: PushOutcome)
      modifies repo`items, repo`queue, server
      ensures server.View() == if delivery == RequestLost then old(server.View())
                               else SyncModel.ApplyMutation(old(server.View()), account, entry.mutation, now).0
      ensures var heard := Heard(old(server.View()), account, entry.mutation, delivery, now);
              var retryAt := now + RetryDelayMs(entry.attempts + 1, baseMs, maxMs);
              var left := EntryAfter(entry, old(repo.items), heard, retryAt);
              && repo.queue == (if left.Some? then old(repo.queue)[entry.mutation.mutationId := left.value]
                                else old(repo.queue) - {entry.mutation.mutationId})
              && repo.items == (if left.None? then old(repo.items)[heard.value.item.At() := heard.value.item] else old(repo.items))
              && outcome == (if left.None? then Applied(heard.value.item)
                             else if left.value.state == Retryable then RetryLater(retryAt)
                             else if left.value.state == Conflicted then InConflict(heard.value)
                             else Thrown)
    {
      hide MonotonicPut, SyncModel.ApplyMutation, Power2;
      var m := entry.mutation;
      ghost var queue := repo.queue;
      repo.EnqueueMutation(entry.(state := Syncing));
      var reply := NotFound;
      if delivery != RequestLost {
        reply := server.ApplyMutation(account, m, now);
      }
      if delivery != Delivered {
        var attempts := entry.attempts + 1;
        var nextRetryAt := now + RetryDelayMs(attempts, baseMs, maxMs);
        repo.EnqueueMutation(entry.(state := Retryable, attempts := attempts, nextRetryAt := Some(nextRetryAt)));
        return RetryLater(nextRetryAt);
      }
      match reply {
        case Created(item) =>
          var stored := repo.PutItem(item);
          if !stored {
            return Thrown;
          }
          repo.DequeueMutation(m.mutationId);
          UpdateTwice(queue, m.mutationId, entry.(state := Syncing), entry);
          outcome := Applied(item);
        case Conflict(_, _, _) =>
          repo.EnqueueMutation(entry.(state := Conflicted));
          outcome := InConflict(reply);
        case _ =>
          repo.EnqueueMutation(entry.(state := Dirty));
          outcome := Thrown;
      }
    }

    /** The old entry goes before the new one is queued. */
    method ResolveConflict(oldMutationId: Id, resolution: Mutation)
      modifies repo`queue
      ensures repo.queue == (old(repo.queue) - {oldMutationId})[resolution.mutationId := QueuedMutation(resolution, Dirty, 0, None)]
    {
      repo.DequeueMutation(oldMutationId);
      EnqueueEdit(resolution);
    }

    /** The k-th `pushOne` of a round takes the stores from what k tries left to what k + 1 leave. */
    method TryNext(server: SyncServer, account: Id, ghost round: Round, ghost start: Stores, ghost k: nat, entry: QueuedMutation, delivery: Delivery, at: Time)
      returns (outcome: PushOutcome)
      requires k < |round.due| && round.due[k] == entry && round.network(k) == (delivery, at)
      requires round.account == account && round.baseMs == baseMs && round.maxMs == maxMs
      requires Stores(server.View(), repo.items, repo.queue) == round.After(start, k)
      modifies repo`items, repo`queue, server
      ensures Stores(server.View(), repo.items, repo.queue) == round.After(start, k + 1)
      ensures outcome == round.OutcomeAt(start, k)
    {
      outcome := PushOne(server, account, entry, delivery, at);
    }

    /** One turn of the loop of `pushAll`: an entry that is not due is skipped. */
    method TryIfDue(
      server: SyncServer, account: Id, entry: QueuedMutation, now: Time, network: nat -> (Delivery, Time), tried: nat,
      outcomes: map<Id, PushOutcome>, ghost round: Round, ghost start: Stores, ghost listed: seq<QueuedMutation>, ghost i: nat)
      returns (more: nat, thrown: bool, results: map<Id, PushOutcome>)
      requires i < |listed| && entry == listed[i] && round.due == DueEntries(listed, now) && DistinctIds(round.due)
      requires round.account == account && round.network == network && round.baseMs == baseMs && round.maxMs == maxMs
      requires Midway(round, start, Stores(server.View(), repo.items, repo.queue), tried, outcomes, listed, i, now)
      modifies repo`items, repo`queue, server
      ensures !thrown ==> Midway(round, start, Stores(server.View(), repo.items, repo.queue), more, results, listed, i + 1, now)
      ensures thrown ==> LeftBy(round, start, Stores(server.View(), repo.items, repo.queue), more, None)
    {
      hide *;
      more, thrown, results := tried, false, outcomes;
      NextEntry(round, start, Stores(server.View(), repo.items, repo.queue), tried, outcomes, listed, i, now);
      if Due(entry, now) {
        var (delivery, at) := network(tried);
        var outcome := TryNext(server, account, round, start, tried, entry, delivery, at);
        more, thrown := tried + 1, outcome.Thrown?;
        if !thrown {
          results := outcomes[entry.mutation.mutationId := outcome];
        }
        EntryTried(round, start, Stores(server.View(), repo.items, repo.queue), tried, outcomes, listed, i, now);
      }
    }

    /** `pushAll` over the listed queue: entries in conflict or in backoff are left alone, the
        others are tried once each in order, each on what the tries before it left, and the first
        that throws ends the call without results. No id is regenerated: what is still queued
        carries the mutation it was queued with. */
    method PushAll(server: SyncServer, account: Id, listed: seq<QueuedMutation>, now: Time, network: nat -> (Delivery, Time))
      returns (tried: nat, results: Option<map<Id, PushOutcome>>)
      requires IsListing(repo.queue, listed)
      modifies repo`items, repo`queue, server
      ensures RoundLeaves(
                Round(account, DueEntries(listed, now), network, baseMs, maxMs),
                Stores(old(server.View()), old(repo.items), old(repo.queue)),
                Stores(server.View(), repo.items, repo.queue), tried, results)
    {
      ghost var round := Round(account, DueEntries(listed, now), network, baseMs, maxMs);
      ghost var start := Stores(server.View(), repo.items, repo.queue);
      DueAreDistinct(listed, now, round.due);
      BeginsMidway(round, start, listed, now);
      var outcomes: map<Id, PushOutcome> := map[];
      var thrown, i := false, 0;
      tried, results := 0, None;
      hide *;
      while i < |listed| && !thrown
        invariant i <= |listed|
        invariant !thrown ==> Midway(round, start, Stores(server.View(), repo.items, repo.queue), tried, outcomes, listed, i, now)
        invariant thrown ==> LeftBy(round, start, Stores(server.View(), repo.items, repo.queue), tried, None)
      {
        tried, thrown, outcomes := TryIfDue(server, account, listed[i], now, network, tried, outcomes, round, start, listed, i);
        i := i + 1;
      }
      if !thrown {
        results := Some(outcomes);
        EndsMidway(round, start, Stores(server.View(), repo.items, repo.queue), tried, outcomes, listed, now);
      }
      RoundKeepsMutations(round, start, Stores(server.View(), repo.items, repo.queue), tried, results);
    }

    /** One page goes through `putItem`; against an honest server none is refused. */
    method ApplyPage(ghost l: Ledger, vaultId: Id, after: int, page: Page, ghost rows: seq<Row>) returns (applied: bool)
      requires LedgerInv(l) && ItemsInv(l, repo.items) && CursorInv(l, repo.items, vaultId, after)
      requires IsFeedPage(l.tables, vaultId, after, FEED_LIMIT, rows) && page == PageOf(rows, after)
      modifies repo`items
      ensures applied
      ensures ItemsInv(l, repo.items) && CursorInv(l, repo.items, vaultId, page.nextCursor)
      ensures KeepsCursors(l, old(repo.items), repo.items)
      ensures SameElsewhere(old(repo.items), repo.items, vaultId)
      ensures repo.items == PutAll(old(repo.items), page.changes) && PutsPass(old(repo.items), page.changes)
    {
      ghost var first := repo.items;
      PagePutStart(l, repo.items, vaultId, page);
      var i := 0;
      assert PartlyPut(l, first, repo.items, vaultId, page, i);
      hide *;
      while i < |page.changes|
        invariant i <= |page.changes| && PartlyPut(l, first, repo.items, vaultId, page, i)
      {
        var change := page.changes[i];
        PagePutStep(l, first, repo.items, vaultId, after, page, rows, i);
        if change.vaultId != vaultId {
          return false;
        }
        var stored := repo.PutItem(change);
        if !stored {
          return false;
        }
        i := i + 1;
      }
      PagePutEnd(l, first, repo.items, vaultId, after, page, rows);
      applied := true;
    }

    /** One turn of the loop of `pull`: None is the 404. */
    method PullPage(server: SyncServer, ghost l: Ledger, account: Id, vaultId: Id, cursor: Option<int>) returns (result: Option<Page>)
      requires LedgerInv(l) && l.tables == server.View()
      requires Synced(l, repo.items, repo.cursors) && CursorInv(l, repo.items, vaultId, After(cursor))
      modifies repo`items, repo`cursors
      ensures Synced(l, repo.items, repo.cursors)
      ensures SameElsewhere(old(repo.items), repo.items, vaultId)
      ensures result.Some? <==> Owns(l.tables, account, vaultId)
      ensures result.None? ==> repo.items == old(repo.items) && repo.cursors == old(repo.cursors)
      ensures result.Some? ==>
                var left, next := |Above(l.tables, vaultId, After(cursor))|, result.value.nextCursor;
                && CursorInv(l, repo.items, vaultId, next)
                && repo.cursors == old(repo.cursors)[vaultId := next]
                && repo.items == PutAll(old(repo.items), result.value.changes) && PutsPass(old(repo.items), result.value.changes)
                && |result.value.changes| == Min(FEED_LIMIT, left)
                && |Above(l.tables, vaultId, next)| == left - |result.value.changes|
                && (result.value.changes != [] ==> After(cursor) < next)
    {
      KeyedRows(l);
      ghost var rows;
      result, rows := server.GetChanges(account, vaultId, cursor);
      if result.Some? {
        PageTakesRows(l.tables, vaultId, After(cursor), FEED_LIMIT, rows);
        ghost var before := repo.items;
        var applied := ApplyPage(l, vaultId, After(cursor), result.value, rows);
        KeepsAllCursors(l, before, repo.items, repo.cursors);
        repo.SetCursor(vaultId, result.value.nextCursor);
        SetKeepsSynced(l, repo.items, old(repo.cursors), vaultId, result.value.nextCursor);
      }
    }

    /** Against an unchanging server: with n rows above the cursor, `pull` applies
        min(maxPages, ceil(n/100) + 1) pages and as many rows as they hold; if they hold
        all n, the local vault is the server's vault. */
    method Pull(server: SyncServer, ghost l: Ledger, account: Id, vaultId: Id, maxPages: nat) returns (outcome: PullOutcome)
      requires LedgerInv(l) && l.tables == server.View()
      requires Synced(l, repo.items, repo.cursors)
      modifies repo`items, repo`cursors
      ensures PullLeaves(PullOrigin(l, account, vaultId, old(repo.items), old(repo.cursors)), repo.items, repo.cursors, maxPages, outcome)
    {
      ghost var from := PullOrigin(l, account, vaultId, repo.items, repo.cursors);
      PullingStarts(from);
      var cursor := repo.GetCursor(vaultId);
      var pagesApplied: nat, itemsApplied: nat, page: nat := 0, 0, 0;
      var madeProgress := true;
      assert Pulling(from, repo.items, repo.cursors, cursor, page, itemsApplied, madeProgress);
      hide *;
      while page < maxPages && madeProgress
        invariant page == pagesApplied <= maxPages
        invariant Pulling(from, repo.items, repo.cursors, cursor, page, itemsApplied, madeProgress)
      {
        ghost var items, cursors := repo.items, repo.cursors;
        PullingMayAsk(from, items, cursors, cursor, page, itemsApplied, madeProgress);
        var result := PullPage(server, l, account, vaultId, cursor);
        if result.None? {
          PullingFails(from, items, cursors, cursor, page, itemsApplied, madeProgress, maxPages);
          return PullError(itemsApplied);
        }
        PullingStep(from, items, cursors, cursor, page, itemsApplied, repo.items, repo.cursors, |result.value.changes|, result.value.nextCursor);
        itemsApplied := itemsApplied + |result.value.changes|;
        pagesApplied := pagesApplied + 1;
        madeProgress := |result.value.changes| > 0 && Some(result.value.nextCursor) != cursor;
        cursor := Some(result.value.nextCursor);
        page := page + 1;
      }
      PullingEnds(from, repo.items, repo.cursors, cursor, page, itemsApplied, madeProgress, maxPages);
      outcome := PullApplied(pagesApplied, itemsApplied, cursor);
    }
  }

  // The loop of `pull`.

  /** What a pull starts from. */
  datatype PullOrigin = PullOrigin(ledger: Ledger, account: Id, vaultId: Id, items: map<Key, ItemRecord>, cursors: map<Id, int>)
  {
    ghost function Left(cursor: Option<int>): nat { |Above(ledger.tables, vaultId, After(cursor))| }

    predicate IsOwner() { Owns(ledger.tables, account, vaultId) }
  }

  /** After some pages of a pull. */
  ghost predicate Pulling(
    from: PullOrigin, items: map<Key, ItemRecord>, cursors: map<Id, int>, cursor: Option<int>, page: nat, applied: nat, madeProgress: bool)
  {
    && LedgerInv(from.ledger)
    && Synced(from.ledger, items, cursors) && CursorInv(from.ledger, items, from.vaultId, After(cursor))
    && SameElsewhere(from.items, items, from.vaultId)
    && (if page == 0 then items == from.items && cursors == from.cursors && cursor == Stored(cursors, from.vaultId)
        else from.IsOwner() && cursor.Some? && cursors == from.cursors[from.vaultId := cursor.value])
    && Counted(from.Left(Stored(from.cursors, from.vaultId)), page, applied, madeProgress)
    && from.Left(cursor) == from.Left(Stored(from.cursors, from.vaultId)) - applied
  }

  /** What a pull leaves: nothing for a vault that is not the caller's or without pages; otherwise as many rows as
      its pages hold of the n above the cursor, and the server's vault if that is all of them. */
  ghost predicate PullLeaves(from: PullOrigin, items: map<Key, ItemRecord>, cursors: map<Id, int>, maxPages: nat, outcome: PullOutcome) {
    && Synced(from.ledger, items, cursors)
    && SameElsewhere(from.items, items, from.vaultId)
    && (!from.IsOwner() || maxPages == 0 ==>
          && items == from.items && cursors == from.cursors
          && outcome == if maxPages == 0 then PullApplied(0, 0, Stored(cursors, from.vaultId)) else PullError(0))
    && (from.IsOwner() && 0 < maxPages ==>
          var n := from.Left(Stored(from.cursors, from.vaultId));
          && outcome.PullApplied?
          && outcome.pagesApplied == Min(maxPages, (n + 99) / 100 + 1)
          && outcome.itemsApplied == Min(n, 100 * maxPages)
          && outcome.cursor.Some?
          && cursors == from.cursors[from.vaultId := outcome.cursor.value]
          && (n <= 100 * maxPages ==> SameVault(items, from.ledger.tables, from.vaultId)))
  }

  lemma PullingStarts(from: PullOrigin)
    requires LedgerInv(from.ledger) && Synced(from.ledger, from.items, from.cursors)
    ensures Pulling(from, from.items, from.cursors, Stored(from.cursors, from.vaultId), 0, 0, true)
  {
    hide Above, LedgerInv;
    FirstCursorInv(from.ledger, from.items, from.vaultId);
    SameElsewhereReflexive(from.items, from.vaultId);
  }

  lemma PullingMayAsk(
    from: PullOrigin, items: map<Key, ItemRecord>, cursors: map<Id, int>, cursor: Option<int>, page: nat, applied: nat, madeProgress: bool)
    requires Pulling(from, items, cursors, cursor, page, applied, madeProgress)
    ensures LedgerInv(from.ledger) && Synced(from.ledger, items, cursors) && CursorInv(from.ledger, items, from.vaultId, After(cursor))
  {
  }

  /** A 404 can only come first. */
  lemma PullingFails(
    from: PullOrigin, items: map<Key, ItemRecord>, cursors: map<Id, int>, cursor: Option<int>, page: nat, applied: nat,
    madeProgress: bool, maxPages: nat)
    requires Pulling(from, items, cursors, cursor, page, applied, madeProgress) && !Owns(from.ledger.tables, from.account, from.vaultId)
    ensures maxPages > 0 ==> PullLeaves(from, items, cursors, maxPages, PullError(applied))
  {
    hide Above, LedgerInv, Synced, CursorInv, SameElsewhere;
  }

  lemma PullingStep(
    from: PullOrigin, items: map<Key, ItemRecord>, cursors: map<Id, int>, cursor: Option<int>, page: nat, applied: nat,
    items': map<Key, ItemRecord>, cursors': map<Id, int>, taken: nat, next: int)
    requires Pulling(from, items, cursors, cursor, page, applied, true) && Owns(from.ledger.tables, from.account, from.vaultId)
    requires Synced(from.ledger, items', cursors') && CursorInv(from.ledger, items', from.vaultId, next)
    requires SameElsewhere(items, items', from.vaultId) && cursors' == cursors[from.vaultId := next]
    requires var left := |Above(from.ledger.tables, from.vaultId, After(cursor))|;
             taken == Min(FEED_LIMIT, left) && |Above(from.ledger.tables, from.vaultId, next)| == left - taken
    requires taken > 0 ==> After(cursor) < next
    ensures Pulling(from, items', cursors', Some(next), page + 1, applied + taken, taken > 0 && Some(next) != cursor)
  {
    hide Above, LedgerInv, Synced, CursorInv, SameElsewhere, Counted;
    CountedStep(from.Left(Stored(from.cursors, from.vaultId)), page, applied, taken);
    SameElsewhereTransitive(from.items, items, items', from.vaultId);
    UpdateTwice(from.cursors, from.vaultId, After(cursor), next);
  }

  lemma PullingEnds(
    from: PullOrigin, items: map<Key, ItemRecord>, cursors: map<Id, int>, cursor: Option<int>, page: nat, applied: nat,
    madeProgress: bool, maxPages: nat)
    requires Pulling(from, items, cursors, cursor, page, applied, madeProgress)
    requires page <= maxPages && (page == maxPages || !madeProgress)
    ensures PullLeaves(from, items, cursors, maxPages, PullApplied(page, applied, cursor))
  {
    hide Above, LedgerInv, CursorInv, SameVault, SameElsewhere, Synced;
    var n := from.Left(Stored(from.cursors, from.vaultId));
    CountedEnd(n, page, applied, madeProgress, maxPages);
    if n == applied {
      SyncedItems(from.ledger, items, cursors);
      NothingAboveIsSameVault(from.ledger, items, from.vaultId, After(cursor));
    }
  }

  predicate Due(entry: QueuedMutation, now: Time) {
    entry.state != Conflicted && !(entry.state == Retryable && entry.nextRetryAt.Some? && entry.nextRetryAt.value > now)
  }

  function DueEntries(listed: seq<QueuedMutation>, now: Time): seq<QueuedMutation> {
    if listed == [] then [] else (if Due(listed[0], now) then [listed[0]] else []) + DueEntries(listed[1..], now)
  }

  /** `pushAll` tries an entry if and only if it is listed, not in conflict and not in a backoff window that
      is still open; and it takes them in the order listed. */
  lemma {:induction false} DueEntriesAre(listed: seq<QueuedMutation>, more: seq<QueuedMutation>, now: Time)
    ensures DueEntries(listed + more, now) == DueEntries(listed, now) + DueEntries(more, now)
    ensures forall e :: e in DueEntries(listed, now) <==>
              e in listed && match e.state { case Conflicted => false
                                             case Retryable => e.nextRetryAt.None? || e.nextRetryAt.value <= now
                                             case _ => true }
    decreases |listed|
  {
    if listed == [] {
      assert listed + more == more;
    } else {
      assert (listed + more)[1..] == listed[1..] + more && listed == [listed[0]] + listed[1..];
      DueEntriesAre(listed[1..], more, now);
    }
  }

  /** The first delay is the base, each later one twice the one before, and none above the maximum. */
  lemma DelaysDouble(attempts: int, baseMs: nat, maxMs: nat)
    ensures attempts <= 1 ==> RetryDelayMs(attempts, baseMs, maxMs) == if baseMs < maxMs then baseMs else maxMs
    ensures attempts >= 1 ==>
              var twice := 2 * RetryDelayMs(attempts, baseMs, maxMs);
              RetryDelayMs(attempts + 1, baseMs, maxMs) == if twice < maxMs then twice else maxMs
  {
    if attempts >= 1 {
      assert Power2(attempts) == 2 * Power2(attempts - 1);
      assert baseMs * Power2(attempts) == 2 * (baseMs * Power2(attempts - 1));
    }
  }

  ghost function IdsOf(entries: seq<QueuedMutation>): set<Id> {
    set j | 0 <= j < |entries| :: entries[j].mutation.mutationId
  }

  predicate DistinctIds(entries: seq<QueuedMutation>) {
    forall i, j | 0 <= i < j < |entries| :: entries[i].mutation.mutationId != entries[j].mutation.mutationId
  }

  /** The queue's entries, each once. */
  ghost predicate IsListing(queue: map<Id, QueuedMutation>, listed: seq<QueuedMutation>) {
    && (forall j | 0 <= j < |listed| ::
          listed[j].mutation.mutationId in queue && queue[listed[j].mutation.mutationId] == listed[j])
    && DistinctIds(listed)
    && IdsOf(listed) == queue.Keys
  }

  predicate IsQueued(queue: map<Id, QueuedMutation>, m: Mutation) {
    m.mutationId in queue && queue[m.mutationId].mutation == m
  }

  ghost predicate SameExcept(before: map<Id, QueuedMutation>, after: map<Id, QueuedMutation>, ids: set<Id>) {
    forall id | id !in ids :: (id in after <==> id in before) && (id in after ==> after[id] == before[id])
  }

  ghost predicate AllKeepMutation(queue: map<Id, QueuedMutation>, tried: seq<QueuedMutation>) {
    forall k | 0 <= k < |tried| && tried[k].mutation.mutationId in queue :: IsQueued(queue, tried[k].mutation)
  }

  /** The first `n` due entries are gone or queued with their own mutation, and no other entry changed. */
  ghost predicate Tried(before: map<Id, QueuedMutation>, after: map<Id, QueuedMutation>, due: seq<QueuedMutation>, n: nat) {
    n <= |due| && AllKeepMutation(after, due[..n]) && SameExcept(before, after, IdsOf(due[..n]))
  }

  /** The answer of each try, under the id of its entry. */
  ghost predicate HasResults(round: Round, start: Stores, n: nat, results: map<Id, PushOutcome>)
    requires n <= |round.due|
  {
    && results.Keys == IdsOf(round.due[..n])
    && forall k | 0 <= k < n :: round.due[k].mutation.mutationId in results
                                && results[round.due[k].mutation.mutationId] == round.OutcomeAt(start, k)
  }

  /** The round ends with the first try that throws, without results, or with the results of all. */
  ghost predicate Ends(round: Round, start: Stores, n: nat, results: Option<map<Id, PushOutcome>>)
    requires n <= |round.due|
  {
    && (forall k | 0 <= k < n :: round.OutcomeAt(start, k).Thrown? <==> results.None? && k == n - 1)
    && (results.None? ==> n > 0)
    && (results.Some? ==> n == |round.due| && HasResults(round, start, n, results.value))
  }

  ghost predicate NoneThrew(round: Round, start: Stores, n: nat)
    requires n <= |round.due|
  {
    forall k | 0 <= k < n :: !round.OutcomeAt(start, k).Thrown?
  }

  lemma NextThrows(round: Round, start: Stores, n: nat)
    requires n < |round.due| && NoneThrew(round, start, n)
    ensures if round.OutcomeAt(start, n).Thrown? then Ends(round, start, n + 1, None) else NoneThrew(round, start, n + 1)
  {
    hide Round.OutcomeAt;
  }

  lemma AllEnds(round: Round, start: Stores, results: map<Id, PushOutcome>)
    requires NoneThrew(round, start, |round.due|) && HasResults(round, start, |round.due|, results)
    ensures Ends(round, start, |round.due|, Some(results))
  {
    hide Round.OutcomeAt, HasResults;
  }

  /** After the first i listed entries of a round in which nothing has thrown. */
  ghost predicate Midway(
    round: Round, start: Stores, stores: Stores, tried: nat, outcomes: map<Id, PushOutcome>, listed: seq<QueuedMutation>, i: nat, now: Time)
  {
    MidwayBefore(round, start, tried, outcomes, listed, i, now) && stores == round.After(start, tried)
  }

  ghost predicate MidwayBefore(
    round: Round, start: Stores, tried: nat, outcomes: map<Id, PushOutcome>, listed: seq<QueuedMutation>, i: nat, now: Time)
  {
    && tried <= |round.due|
    && Remaining(round.due, tried, listed, i, now)
    && NoneThrew(round, start, tried)
    && HasResults(round, start, tried, outcomes)
  }

  /** What a round leaves. */
  ghost predicate LeftBy(round: Round, start: Stores, stores: Stores, tried: nat, results: Option<map<Id, PushOutcome>>) {
    tried <= |round.due| && stores == round.After(start, tried) && Ends(round, start, tried, results)
  }

  /** The next listed entry is skipped, or it is the next to be tried. */
  lemma NextEntry(
    round: Round, start: Stores, stores: Stores, tried: nat, outcomes: map<Id, PushOutcome>, listed: seq<QueuedMutation>, i: nat, now: Time)
    requires i < |listed| && Midway(round, start, stores, tried, outcomes, listed, i, now)
    ensures MidwayBefore(round, start, tried, outcomes, listed, i, now)
    ensures if Due(listed[i], now) then tried < |round.due| && round.due[tried] == listed[i] && stores == round.After(start, tried)
            else Midway(round, start, stores, tried, outcomes, listed, i + 1, now)
  {
    hide Due, DueEntries, HasResults, NoneThrew, Round.After, Round.OutcomeAt;
    DueStep(listed, i, now, round.due, tried);
  }

  /** After its try the round goes on or ends. */
  lemma EntryTried(
    round: Round, start: Stores, stores: Stores, tried: nat, outcomes: map<Id, PushOutcome>, listed: seq<QueuedMutation>, i: nat, now: Time)
    requires i < |listed| && Due(listed[i], now) && DistinctIds(round.due) && tried < |round.due|
    requires MidwayBefore(round, start, tried, outcomes, listed, i, now) && stores == round.After(start, tried + 1)
    ensures var outcome := round.OutcomeAt(start, tried);
            if outcome.Thrown? then LeftBy(round, start, stores, tried + 1, None)
            else Midway(round, start, stores, tried + 1, outcomes[listed[i].mutation.mutationId := outcome], listed, i + 1, now)
  {
    hide Due, DueEntries, HasResults, NoneThrew, Ends, Round.After, Round.OutcomeAt, DistinctIds;
    DueStep(listed, i, now, round.due, tried);
    NextThrows(round, start, tried);
    ResultsSnoc(round, start, tried, outcomes);
  }

  lemma BeginsMidway(round: Round, start: Stores, listed: seq<QueuedMutation>, now: Time)
    requires round.due == DueEntries(listed, now)
    ensures Midway(round, start, start, 0, map[], listed, 0, now)
  {
    AllRemain(listed, now);
  }

  lemma EndsMidway(
    round: Round, start: Stores, stores: Stores, tried: nat, outcomes: map<Id, PushOutcome>, listed: seq<QueuedMutation>, now: Time)
    requires Midway(round, start, stores, tried, outcomes, listed, |listed|, now)
    ensures LeftBy(round, start, stores, tried, Some(outcomes))
  {
    NothingDue(listed, now, round.due, tried);
    AllEnds(round, start, outcomes);
  }

  /** And the mutations it leaves queued are those it found: no entry that was not tried is touched, a tried
      one is gone or queued with its own mutation, and the one that threw is still queued. */
  ghost predicate RoundLeaves(round: Round, start: Stores, stores: Stores, tried: nat, results: Option<map<Id, PushOutcome>>) {
    && LeftBy(round, start, stores, tried, results)
    && Tried(start.queue, stores.queue, round.due, tried)
    && (results.None? ==> tried > 0 && IsQueued(stores.queue, round.due[tried - 1].mutation))
  }

  lemma RoundKeepsMutations(round: Round, start: Stores, stores: Stores, tried: nat, results: Option<map<Id, PushOutcome>>)
    requires LeftBy(round, start, stores, tried, results) && DistinctIds(round.due)
    ensures RoundLeaves(round, start, stores, tried, results)
  {
    TriesKeepMutations(round, start, tried);
  }

  lemma ResultsSnoc(round: Round, start: Stores, n: nat, results: map<Id, PushOutcome>)
    requires n < |round.due| && DistinctIds(round.due) && HasResults(round, start, n, results)
    ensures HasResults(round, start, n + 1, results[round.due[n].mutation.mutationId := round.OutcomeAt(start, n)])
  {
    hide IdsOf, round.OutcomeAt;
    IdsOfSnoc(round.due, n);
  }

  lemma KeptElsewhere(first: map<Id, QueuedMutation>, before: map<Id, QueuedMutation>, after: map<Id, QueuedMutation>, ids: set<Id>, id: Id)
    requires SameExcept(first, before, ids) && SameExcept(before, after, {id})
    ensures SameExcept(first, after, ids + {id})
  {
  }

  /** The due entries not tried yet are those of the entries not looked at yet. */
  predicate Remaining(due: seq<QueuedMutation>, tried: nat, listed: seq<QueuedMutation>, i: nat, now: Time) {
    tried <= |due| && i <= |listed| && due[tried..] == DueEntries(listed[i..], now)
  }

  lemma AllRemain(listed: seq<QueuedMutation>, now: Time)
    ensures Remaining(DueEntries(listed, now), 0, listed, 0, now)
  {
    assert listed[0..] == listed;
  }

  /** One turn of the loop: a due entry is the next of the list of due entries. */
  lemma DueStep(listed: seq<QueuedMutation>, i: nat, now: Time, due: seq<QueuedMutation>, tried: nat)
    requires i < |listed| && Remaining(due, tried, listed, i, now)
    ensures if Due(listed[i], now) then tried < |due| && due[tried] == listed[i] && Remaining(due, tried + 1, listed, i + 1, now)
            else Remaining(due, tried, listed, i + 1, now)
  {
    assert listed[i..][1..] == listed[i + 1..];
    if Due(listed[i], now) {
      assert due[tried] == due[tried..][0];
      assert due[tried + 1..] == due[tried..][1..];
    }
  }

  lemma NothingDue(listed: seq<QueuedMutation>, now: Time, due: seq<QueuedMutation>, tried: nat)
    requires Remaining(due, tried, listed, |listed|, now)
    ensures tried == |due|
  {
  }

  lemma {:induction false} DueAreListed(listed: seq<QueuedMutation>, now: Time)
    ensures forall e | e in DueEntries(listed, now) :: e in listed
    decreases |listed|
  {
    if listed != [] {
      DueAreListed(listed[1..], now);
    }
  }

  lemma {:induction false} DueAreDistinct(listed: seq<QueuedMutation>, now: Time, due: seq<QueuedMutation>)
    requires due == DueEntries(listed, now)
    requires DistinctIds(listed)
    ensures DistinctIds(due)
    decreases |listed|
  {
    if listed != [] {
      var rest := DueEntries(listed[1..], now);
      DueAreDistinct(listed[1..], now, rest);
      DueAreListed(listed[1..], now);
      forall j | 0 <= j < |rest|
        ensures rest[j].mutation.mutationId != listed[0].mutation.mutationId
      {
        assert rest[j] in rest;
        assert rest[j] in listed[1..];
      }
    }
  }

  lemma IdsOfSnoc(entries: seq<QueuedMutation>, n: nat)
    requires n < |entries|
    ensures IdsOf(entries[..n + 1]) == IdsOf(entries[..n]) + {entries[n].mutation.mutationId}
  {
    var more, some := entries[..n + 1], entries[..n];
    forall id | id in IdsOf(some)
      ensures id in IdsOf(more)
    {
      var j :| 0 <= j < |some| && some[j].mutation.mutationId == id;
      assert more[j] == some[j];
    }
    assert more[n] == entries[n];
    forall id | id in IdsOf(more) && id != entries[n].mutation.mutationId
      ensures id in IdsOf(some)
    {
      var j :| 0 <= j < |more| && more[j].mutation.mutationId == id;
      assert some[j] == more[j];
    }
  }

  function Stored(cursors: map<Id, int>, vaultId: Id): Option<int> {
    if vaultId in cursors then Some(cursors[vaultId]) else None
  }

  /** What every reachable client satisfies about its own store. */
  ghost predicate Synced(l: Ledger, items: map<Key, ItemRecord>, cursors: map<Id, int>) {
    ItemsInv(l, items) && CursorsInv(l, items, cursors)
  }

  lemma SyncedItems(l: Ledger, items: map<Key, ItemRecord>, cursors: map<Id, int>)
    requires Synced(l, items, cursors)
    ensures ItemsInv(l, items)
  {
  }

  lemma SetKeepsSynced(l: Ledger, items: map<Key, ItemRecord>, cursors: map<Id, int>, vaultId: Id, cursor: int)
    requires Synced(l, items, cursors) && CursorInv(l, items, vaultId, cursor)
    ensures Synced(l, items, cursors[vaultId := cursor])
  {
  }

  lemma KeyedRows(l: Ledger)
    requires LedgerInv(l)
    ensures Keyed(l.tables)
  {
    forall key | key in l.tables.items
      ensures l.tables.items[key].record.At() == key
    {
      RowIsKnown(l, key);
    }
  }

  lemma CurrentRecordIsStorable(l: Ledger, vaultId: Id, after: int, rows: seq<Row>, i: nat, items: map<Key, ItemRecord>)
    requires LedgerInv(l) && ItemsInv(l, items) && IsFeedPage(l.tables, vaultId, after, FEED_LIMIT, rows) && i < |rows|
    ensures rows[i].record.vaultId == vaultId && PutStep(l, items, items[rows[i].record.At() := rows[i].record], rows[i].record)
  {
    assert IsFeedRow(l.tables, vaultId, after, rows[i]);
    RowIsKnown(l, rows[i].record.At());
    if rows[i].record.At() in items {
      KnownIsNotAhead(l, items[rows[i].record.At()]);
    }
  }

  /** The client holds exactly the server's records of the vault, tombstones included. */
  ghost predicate SameVault(items: map<Key, ItemRecord>, t: Tables, vaultId: Id) {
    forall key: Key | key.vaultId == vaultId ::
      && (key in items <==> key in t.items)
      && (key in items ==> items[key] == t.items[key].record)
  }

  lemma NothingAboveIsSameVault(l: Ledger, items: map<Key, ItemRecord>, vaultId: Id, cursor: int)
    requires LedgerInv(l) && ItemsInv(l, items) && CursorInv(l, items, vaultId, cursor)
    requires |Above(l.tables, vaultId, cursor)| == 0
    ensures SameVault(items, l.tables, vaultId)
  {
    forall key: Key | key.vaultId == vaultId
      ensures key in items <==> key in l.tables.items
      ensures key in items ==> items[key] == l.tables.items[key].record
    {
      assert key !in Above(l.tables, vaultId, cursor);
      if key in items {
        KnownIsNotAhead(l, items[key]);
      }
    }
  }
}
