module SyncAnswers {
  // What the steps of the sync protocol write: the timestamps of items, and the items and cursors of a pull.

  import opened Wrappers
  import opened SyncModel
  import opened SyncLedger
  import opened SyncWorld
  import opened SyncInvariant
  import opened SyncPreservation
  import opened SyncTheorems
  import opened SyncRefusals
  import opened SyncEngine

  // What a delivery writes.

  /** The server accepts the delivery: an id without a recorded outcome, a vault that is the caller's or
      nobody's, and the item's current revision as base. */
  predicate Accepts(t: Tables, account: Id, m: Mutation) {
    && RequestId(account, m.mutationId) !in t.outcomes
    && (m.vaultId in t.vaults ==> t.vaults[m.vaultId] == account)
    && m.baseRevision == (if m.At() in t.items then t.items[m.At()].record.revision else 0)
  }

  /** In every run a delivery that is accepted writes exactly its item: the mutation's content at the
      next revision, updated at the time of the transaction, and created at it if the item is new; the
      201 carries this record. A new row draws one sequence value, an updated one two. Any other
      delivery leaves every item as it is. */
  lemma DeliveryWrites(accounts: map<nat, Id>, run: seq<Event>, account: Id, m: Mutation, now: Time)
    requires (account, m) in Run(accounts, run).net.mutations
    ensures var t := Run(accounts, run).ledger.tables;
            var w := Step(Run(accounts, run), Deliver(account, m, now)).ledger.tables;
            if Accepts(t, account, m) then
              && m.At() in w.items
              && w.items == t.items[m.At() := w.items[m.At()]]
              && w.items[m.At()].record == ItemRecord(
                   m.itemId, m.vaultId, m.ciphertext, m.envelopeVersion, m.baseRevision + 1, m.deleted,
                   if m.At() in t.items then t.items[m.At()].record.createdAt else now, now)
              && w.items[m.At()].sequence == w.sequence == t.sequence + (if m.At() in t.items then 2 else 1)
              && w.vaults == t.vaults[m.vaultId := account]
              && w.outcomes == t.outcomes[RequestId(account, m.mutationId) := Created(w.items[m.At()].record)]
            else w.items == t.items && w.sequence == t.sequence
  {
    var t := Run(accounts, run).ledger.tables;
    TransactWrites(t, account, m, now);
    assert Step(Run(accounts, run), Deliver(account, m, now)).ledger.tables == SyncModel.ApplyMutation(t, account, m, now).0;
  }

  lemma TransactWrites(t: Tables, account: Id, m: Mutation, now: Time)
    ensures var w := SyncModel.ApplyMutation(t, account, m, now).0;
            if Accepts(t, account, m) then
              && m.At() in w.items
              && w.items == t.items[m.At() := w.items[m.At()]]
              && w.items[m.At()].record == ItemRecord(
                   m.itemId, m.vaultId, m.ciphertext, m.envelopeVersion, m.baseRevision + 1, m.deleted,
                   if m.At() in t.items then t.items[m.At()].record.createdAt else now, now)
              && w.items[m.At()].sequence == w.sequence == t.sequence + (if m.At() in t.items then 2 else 1)
              && w.vaults == t.vaults[m.vaultId := account]
              && w.outcomes == t.outcomes[RequestId(account, m.mutationId) := Created(w.items[m.At()].record)]
            else w.items == t.items && w.sequence == t.sequence
  {
  }

  /** What a delivery that writes nothing answers and records: a replay of the recorded reply, 404 for
      another's vault, a recorded 409 with the current record, or 400 for an item that does not exist. */
  lemma {:induction false} DeliveryRefuses(accounts: map<nat, Id>, run: seq<Event>, account: Id, m: Mutation, now: Time)
    requires !Accepts(Run(accounts, run).ledger.tables, account, m)
    ensures var t := Run(accounts, run).ledger.tables;
            var id := RequestId(account, m.mutationId);
            var (w, reply) := SyncModel.ApplyMutation(t, account, m, now);
            if id in t.outcomes then w == t && reply == t.outcomes[id]
            else if m.vaultId in t.vaults && t.vaults[m.vaultId] != account then w == t && reply == NotFound
            else if m.At() in t.items then
              && reply == Conflict(m.mutationId, t.items[m.At()].record, m)
              && w == t.(vaults := t.vaults[m.vaultId := account], outcomes := t.outcomes[id := reply])
            else w == t && reply == BadRequest
  {
  }

  /** Only deliveries write items. */
  lemma OnlyDeliveriesWrite(w: World, e: Event)
    requires !e.Deliver?
    ensures Step(w, e).ledger.tables.items == w.ledger.tables.items
  {
    hide ClientStep;
  }

  lemma StepKeepsCreation(accounts: map<nat, Id>, run: seq<Event>, e: Event, key: Key)
    requires key in Run(accounts, run).ledger.tables.items
    ensures var t, w := Run(accounts, run).ledger.tables, Step(Run(accounts, run), e).ledger.tables;
            key in w.items && w.items[key].record.createdAt == t.items[key].record.createdAt
  {
    if e.Deliver? {
      if (e.account, e.mutation) in Run(accounts, run).net.mutations {
        DeliveryWrites(accounts, run, e.account, e.mutation, e.now);
      }
    } else {
      OnlyDeliveriesWrite(Run(accounts, run), e);
    }
  }

  /** An item's creation time never changes, whatever is written or deleted later. */
  lemma {:induction false} CreationTimeIsForever(accounts: map<nat, Id>, run: seq<Event>, more: seq<Event>, key: Key)
    requires key in Run(accounts, run).ledger.tables.items
    ensures key in Run(accounts, run + more).ledger.tables.items
    ensures Run(accounts, run + more).ledger.tables.items[key].record.createdAt == Run(accounts, run).ledger.tables.items[key].record.createdAt
    decreases |more|
  {
    if more == [] {
      assert run + more == run;
    } else {
      var front := more[..|more| - 1];
      assert (run + more)[..|run + more| - 1] == run + front;
      CreationTimeIsForever(accounts, run, front, key);
      StepKeepsCreation(accounts, run + front, more[|more| - 1], key);
    }
  }

  /** Event n is an accepted delivery of a mutation of the item. */
  ghost predicate Writes(w: World, e: Event, key: Key) {
    && e.Deliver? && e.mutation.At() == key
    && (e.account, e.mutation) in w.net.mutations
    && Accepts(w.ledger.tables, e.account, e.mutation)
  }

  ghost predicate WritesAt(accounts: map<nat, Id>, run: seq<Event>, n: nat, key: Key)
    requires n < |run|
  {
    Writes(Reached(accounts, run, n), run[n], key)
  }

  /** Event `first` wrote the item when it was new, event `last` was the last that wrote it, and these
      are its times in world n. */
  ghost predicate Stamped(accounts: map<nat, Id>, run: seq<Event>, n: nat, key: Key, first: nat, last: nat) {
    && first <= last < n <= |run|
    && key in Reached(accounts, run, n).ledger.tables.items
    && WritesAt(accounts, run, first, key) && key !in Reached(accounts, run, first).ledger.tables.items
    && WritesAt(accounts, run, last, key) && (forall k | last < k < n :: !WritesAt(accounts, run, k, key))
    && Reached(accounts, run, n).ledger.tables.items[key].record.createdAt == run[first].now
    && Reached(accounts, run, n).ledger.tables.items[key].record.updatedAt == run[last].now
  }

  /** What one step does to an item's times. */
  lemma StepStamps(w: World, e: Event, key: Key)
    ensures var t, u := w.ledger.tables.items, Step(w, e).ledger.tables.items;
            if Writes(w, e, key) then
              key in u && u[key].record.updatedAt == e.now && u[key].record.createdAt == if key in t then t[key].record.createdAt else e.now
            else (key in u <==> key in t) && (key in u ==> u[key] == t[key])
  {
    if e.Deliver? && (e.account, e.mutation) in w.net.mutations {
      TransactWrites(w.ledger.tables, e.account, e.mutation, e.now);
      assert Step(w, e).ledger.tables == SyncModel.ApplyMutation(w.ledger.tables, e.account, e.mutation, e.now).0;
      hide SyncModel.ApplyMutation, Transact;
    } else {
      UndeliveredWritesNothing(w, e);
    }
  }

  /** In every run an item's creation time is that of the accepted delivery that first wrote it, and its
      update time is that of the last one that wrote it. */
  lemma {:induction false} StampsAreDeliveries(accounts: map<nat, Id>, run: seq<Event>, n: nat, key: Key) returns (first: nat, last: nat)
    requires n <= |run| && key in Reached(accounts, run, n).ledger.tables.items
    ensures Stamped(accounts, run, n, key, first, last)
    decreases n
  {
    hide Run, Step, Accepts, Writes, Inv, FeedsInv;
    if n == 0 {
      ReachedFirst(accounts, run);
      assert false;
    } else {
      var w := Reached(accounts, run, n - 1);
      ReachedNext(accounts, run, n - 1);
      StepStamps(w, run[n - 1], key);
      if key in w.ledger.tables.items {
        first, last := StampsAreDeliveries(accounts, run, n - 1, key);
      } else {
        first := n - 1;
      }
      if Writes(w, run[n - 1], key) {
        last := n - 1;
      }
    }
  }

  lemma UndeliveredWritesNothing(w: World, e: Event)
    requires !(e.Deliver? && (e.account, e.mutation) in w.net.mutations)
    ensures Step(w, e).ledger.tables.items == w.ledger.tables.items
  {
    if !e.Deliver? {
      OnlyDeliveriesWrite(w, e);
    }
  }

  /** A feed request is answered only for the owner of the vault, and whatever a page may be for him can be sent. */
  lemma OnlyOwnersAreAnswered(w: World, req: nat, rows: seq<Row>)
    ensures var t := w.ledger.tables;
            Step(w, AnswerFeed(req, rows))
            == if req in w.net.feeds && w.net.feeds[req].vaultId in t.vaults
                  && t.vaults[w.net.feeds[req].vaultId] == w.net.feeds[req].account
                  && IsFeedPage(t, w.net.feeds[req].vaultId, w.net.feeds[req].after, 100, rows)
               then w.(net := w.net.(pages := w.net.pages + {(req, PageOf(rows, w.net.feeds[req].after))}))
               else w
  {
    hide IsFeedPage;
  }

  /** A record is put exactly if the item is new, the revision is later, or at the same revision nothing differs. */
  lemma PutPassesIff(items: map<Key, ItemRecord>, r: ItemRecord)
    requires r.At() in items ==> items[r.At()].At() == r.At()
    ensures MonotonicPut(items, r) <==> r.At() !in items || items[r.At()].revision < r.revision || items[r.At()] == r
  {
  }

  // What the application and a push write.

  /** An enqueued edit is queued dirty without attempts and owed from then on; a withdrawn one is neither. */
  lemma EditsAreOwed(w: World, c: nat, m: Mutation, id: Id)
    requires c in w.clients
    ensures var cl := w.clients[c];
            var id' := RequestId(cl.account, m.mutationId);
            && Step(w, Act(c, Withdraw(id))).clients == w.clients[c := cl.(queue := cl.queue - {id}, owed := cl.owed - {id})]
            && (id' !in w.issued || w.issued[id'] == m ==>
                  && Step(w, Act(c, Enqueue(m))).issued == w.issued[id' := m]
                  && Step(w, Act(c, Enqueue(m))).clients
                     == w.clients[c := cl.(queue := cl.queue[m.mutationId := QueuedMutation(m, Dirty, 0, None)], owed := cl.owed + {m.mutationId})])
  {
  }

  /** A push that is refused without a recorded reply leaves its entry dirty, with its attempts. */
  lemma RefusedPushIsDirty(w: World, c: nat, t: nat)
    requires c in w.clients && Enabled(w, w.clients[c], PushRefused(t))
    ensures var cl := w.clients[c];
            var entry := cl.pushes[t].entry;
            Step(w, Act(c, PushRefused(t))).clients
            == w.clients[c := cl.(queue := cl.queue[entry.mutation.mutationId := entry.(state := Dirty)], pushes := cl.pushes - {t})]
  {
  }

  /** A transaction that did not commit still uses up its sequence value. */
  lemma LostSequencesAreSkipped(w: World)
    ensures Step(w, BurnSequence) == w.(ledger := w.ledger.(tables := w.ledger.tables.(sequence := w.ledger.tables.sequence + 1)))
  {
  }

  // What a pull writes.

  /** A pull that starts reads its cursor from the store. */
  lemma PullStarts(w: World, c: nat, t: nat, vaultId: Id, maxPages: nat)
    requires c in w.clients && Enabled(w, w.clients[c], PullStart(t, vaultId, maxPages))
    ensures var cl := w.clients[c];
            Step(w, Act(c, PullStart(t, vaultId, maxPages))).clients
            == w.clients[c := cl.(pulls := cl.pulls[t := Pull(vaultId, Stored(cl.cursors, vaultId), maxPages, Asking)])]
  {
  }

  /** A request asks from the pull's cursor. */
  lemma PullAsksFromItsCursor(w: World, c: nat, t: nat, req: nat)
    requires c in w.clients && Enabled(w, w.clients[c], PullSend(t, req))
    ensures var cl := w.clients[c];
            var p := cl.pulls[t];
            var w' := Step(w, Act(c, PullSend(t, req)));
            && w'.net.feeds == w.net.feeds[req := FeedRequest(cl.account, p.vaultId, if p.cursor.Some? then p.cursor.value else 0)]
            && w'.clients == w.clients[c := cl.(pulls := cl.pulls[t := p.(phase := Waiting(req))])]
  {
  }

  /** How a pull goes on after it has committed a page: from the page's cursor if the page had records
      and moved the cursor and there are pages left. */
  function PullsAfter(cl: Client, t: nat, page: Page): map<nat, Pull>
    requires t in cl.pulls
  {
    var p := cl.pulls[t];
    if page.changes != [] && p.cursor != Some(page.nextCursor) && 1 < p.pagesLeft then
      cl.pulls[t := Pull(p.vaultId, Some(page.nextCursor), p.pagesLeft - 1, Asking)]
    else cl.pulls - {t}
  }

  /** A commit stores the page's next cursor for the pulled vault, and nothing else. */
  lemma CommitStoresTheCursor(w: World, c: nat, t: nat)
    requires c in w.clients && Enabled(w, w.clients[c], PullCommit(t))
    ensures var cl := w.clients[c];
            var page := cl.pulls[t].phase.page;
            var w' := Step(w, Act(c, PullCommit(t)));
            && w' == w.(clients := w'.clients)
            && w'.clients == w.clients[c := cl.(cursors := cl.cursors[cl.pulls[t].vaultId := page.nextCursor], pulls := PullsAfter(cl, t, page))]
  {
  }

  /** Nothing but a commit ever touches a client's cursors. */
  lemma CursorsMoveExactly(w: World, e: Event, c: nat)
    requires c in w.clients
    ensures c in Step(w, e).clients
    ensures Step(w, e).clients[c].cursors
         == if e.Act? && e.client == c && e.action.PullCommit? && Enabled(w, w.clients[c], e.action) then
              var p := w.clients[c].pulls[e.action.task];
              w.clients[c].cursors[p.vaultId := p.phase.page.nextCursor]
            else w.clients[c].cursors
  {
    hide Step;
    OnlyItsActsMoveAClient(w, e, c);
  }

  // The protocol's steps for one page, run through.

  function AfterPuts(cl: Client, t: nat, n: nat): Client {
    if n == 0 then cl
    else
      var before := AfterPuts(cl, t, n - 1);
      if Ready(before, PullPut(t)) then ClientStep(before, PullPut(t)) else before
  }

  function AfterPage(cl: Client, t: nat, page: Page): Client
    requires Ready(cl, PullReceive(t, page))
  {
    var put := AfterPuts(ClientStep(cl, PullReceive(t, page)), t, |page.changes|);
    if Ready(put, PullCommit(t)) then ClientStep(put, PullCommit(t)) else put
  }

  predicate AllOfVault(page: Page, vaultId: Id) {
    forall j | 0 <= j < |page.changes| :: page.changes[j].vaultId == vaultId
  }

  /** The client after the first n records of the page. */
  function MidPage(cl: Client, t: nat, page: Page, n: nat): Client
    requires t in cl.pulls && n <= |page.changes|
  {
    cl.(items := PutAll(cl.items, page.changes[..n]), pulls := cl.pulls[t := cl.pulls[t].(phase := Applying(page, n))])
  }

  lemma NextPut(cl: Client, t: nat, page: Page, n: nat)
    requires t in cl.pulls && n < |page.changes| && page.changes[n].vaultId == cl.pulls[t].vaultId
    ensures Ready(MidPage(cl, t, page, n), PullPut(t))
    ensures ClientStep(MidPage(cl, t, page, n), PullPut(t))
         == if PutPasses(cl.items, page.changes, n) then MidPage(cl, t, page, n + 1)
            else cl.(items := PutAll(cl.items, page.changes[..n]), pulls := cl.pulls - {t})
  {
    PutAllSnoc(cl.items, page.changes, n);
    hide PutAll, MonotonicPut;
    var p := cl.pulls[t];
    assert cl.pulls[t := p.(phase := Applying(page, n))][t := p.(phase := Applying(page, n + 1))] == cl.pulls[t := p.(phase := Applying(page, n + 1))];
    assert cl.pulls[t := p.(phase := Applying(page, n))] - {t} == cl.pulls - {t};
  }

  predicate FirstPass(items: map<Key, ItemRecord>, changes: seq<ItemRecord>, n: nat) {
    n <= |changes| && forall k | 0 <= k < n :: PutPasses(items, changes, k)
  }

  lemma {:induction false} PutsLeave(cl: Client, t: nat, page: Page, n: nat)
    requires Ready(cl, PullReceive(t, page)) && AllOfVault(page, cl.pulls[t].vaultId) && FirstPass(cl.items, page.changes, n)
    ensures AfterPuts(ClientStep(cl, PullReceive(t, page)), t, n) == MidPage(cl, t, page, n)
    decreases n
  {
    hide ClientStep, MonotonicPut, PutPasses;
    if n > 0 {
      PutsLeave(cl, t, page, n - 1);
      NextPut(cl, t, page, n - 1);
    } else {
      ReceiptBegins(cl, t, page);
    }
  }

  lemma ReceiptBegins(cl: Client, t: nat, page: Page)
    requires Ready(cl, PullReceive(t, page))
    ensures ClientStep(cl, PullReceive(t, page)) == MidPage(cl, t, page, 0)
  {
  }

  /** They leave the items, the cursor and the next request that `PullPage` leaves: every record of the
      page put in order, its next cursor stored, and the pull asking from there. */
  lemma AfterPageLeaves(cl: Client, t: nat, page: Page)
    requires Ready(cl, PullReceive(t, page))
    requires AllOfVault(page, cl.pulls[t].vaultId) && PutsPass(cl.items, page.changes)
    ensures AfterPage(cl, t, page)
         == cl.(items := PutAll(cl.items, page.changes),
                cursors := cl.cursors[cl.pulls[t].vaultId := page.nextCursor],
                pulls := PullsAfter(cl, t, page))
  {
    hide ClientStep, AfterPuts, PutAll, PutPasses;
    PutsLeave(cl, t, page, |page.changes|);
    FullPageCommits(cl, t, page);
  }

  lemma FullPageCommits(cl: Client, t: nat, page: Page)
    requires t in cl.pulls
    ensures Ready(MidPage(cl, t, page, |page.changes|), PullCommit(t))
    ensures ClientStep(MidPage(cl, t, page, |page.changes|), PullCommit(t))
         == cl.(items := PutAll(cl.items, page.changes),
                cursors := cl.cursors[cl.pulls[t].vaultId := page.nextCursor],
                pulls := PullsAfter(cl, t, page))
  {
    hide PutAll;
    assert page.changes[..|page.changes|] == page.changes;
    var p := cl.pulls[t];
    var mid := cl.pulls[t := p.(phase := Applying(page, |page.changes|))];
    assert mid - {t} == cl.pulls - {t};
    var next := Pull(p.vaultId, Some(page.nextCursor), if p.pagesLeft > 0 then p.pagesLeft - 1 else 0, Asking);
    assert mid[t := next] == cl.pulls[t := next];
  }

  /** If a record is refused the pull ends there, with the records before it stored and no cursor. */
  lemma {:induction false} AfterPageRefused(cl: Client, t: nat, page: Page, j: nat, n: nat)
    requires Ready(cl, PullReceive(t, page)) && AllOfVault(page, cl.pulls[t].vaultId)
    requires j < n <= |page.changes| && FirstPass(cl.items, page.changes, j) && !PutPasses(cl.items, page.changes, j)
    ensures AfterPuts(ClientStep(cl, PullReceive(t, page)), t, n)
         == cl.(items := PutAll(cl.items, page.changes[..j]), pulls := cl.pulls - {t})
    decreases n
  {
    hide ClientStep, MonotonicPut, PutPasses, PutAll;
    if n > j + 1 {
      AfterPageRefused(cl, t, page, j, n - 1);
    } else {
      PutsLeave(cl, t, page, j);
      NextPut(cl, t, page, j);
    }
  }
}
