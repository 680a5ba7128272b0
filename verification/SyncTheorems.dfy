/** What holds after every run of one server, any number of clients and a faulty network. */
module SyncTheorems {
  import opened Wrappers
  import opened SyncModel
  import opened SyncLedger
  import opened SyncWorld
  import opened SyncInvariant
  import opened SyncPreservation

  lemma InitHasInv(accounts: map<nat, Id>)
    ensures Inv(Init(accounts))
  {
  }

  lemma {:induction false} RunKeepsInv(accounts: map<nat, Id>, run: seq<Event>)
    ensures Inv(Run(accounts, run))
    ensures Run(accounts, run).clients.Keys == accounts.Keys
    decreases |run|
  {
    if run == [] {
      InitHasInv(accounts);
    } else {
      RunKeepsInv(accounts, run[..|run| - 1]);
      StepKeepsInv(Run(accounts, run[..|run| - 1]), run[|run| - 1]);
    }
  }

  lemma ExtendsIsTransitive(a: World, b: World, c: World)
    requires Extends(a, b) && Extends(b, c)
    ensures Extends(a, c)
  {
    forall key: Key
      ensures a.ledger.Log(key) <= c.ledger.Log(key)
    {
      assert a.ledger.Log(key) <= b.ledger.Log(key) <= c.ledger.Log(key);
    }
  }

  /** What was recorded before stays recorded. */
  lemma {:induction false} LaterExtends(accounts: map<nat, Id>, run: seq<Event>, more: seq<Event>)
    ensures Extends(Run(accounts, run), Run(accounts, run + more))
    decreases |more|
  {
    if more == [] {
      assert run + more == run;
    } else {
      var front := more[..|more| - 1];
      assert (run + more)[..|run + more| - 1] == run + front;
      LaterExtends(accounts, run, front);
      RunKeepsInv(accounts, run + front);
      StepKeepsInv(Run(accounts, run + front), more[|more| - 1]);
      ExtendsIsTransitive(Run(accounts, run), Run(accounts, run + front), Run(accounts, run + more));
    }
  }

  /** Each item at or below a client's stored cursor is held by it as exactly the
      server's current record, tombstones included. */
  lemma ReplicaExactness(accounts: map<nat, Id>, run: seq<Event>, c: nat, vaultId: Id, key: Key)
    requires c in accounts
    ensures var w := Run(accounts, run);
            && c in w.clients
            && (vaultId in w.clients[c].cursors && key in w.ledger.tables.items && key.vaultId == vaultId
                && w.ledger.tables.items[key].sequence <= w.clients[c].cursors[vaultId]
                ==> key in w.clients[c].items && w.clients[c].items[key] == w.ledger.tables.items[key].record)
  {
    RunKeepsInv(accounts, run);
    var w := Run(accounts, run);
    assert ClientInv(w, w.clients[c]);
    if vaultId in w.clients[c].cursors {
      assert CursorInv(w.ledger, w.clients[c].items, vaultId, w.clients[c].cursors[vaultId]);
    }
  }

  /** Every local record is the record of a 201 the server gave at that revision, and
      is not ahead of the server's row. */
  lemma LocalRecordsWereServed(accounts: map<nat, Id>, run: seq<Event>, c: nat, key: Key)
    requires c in Run(accounts, run).clients && key in Run(accounts, run).clients[c].items
    ensures var w := Run(accounts, run);
            var record := w.clients[c].items[key];
            && record.At() == key
            && (exists id :: id in w.ledger.tables.outcomes && w.ledger.tables.outcomes[id] == Created(record))
            && key in w.ledger.tables.items
            && record.revision <= w.ledger.tables.items[key].record.revision
  {
    RunKeepsInv(accounts, run);
    var w := Run(accounts, run);
    assert ClientInv(w, w.clients[c]);
    KnownWasServed(w.ledger, w.clients[c].items[key]);
  }

  lemma KnownWasServed(l: Ledger, record: ItemRecord)
    requires LedgerInv(l) && l.Knows(record)
    ensures exists id :: id in l.tables.outcomes && l.tables.outcomes[id] == Created(record)
    ensures record.At() in l.tables.items && record.revision <= l.tables.items[record.At()].record.revision
  {
    KnownIsNotAhead(l, record);
    assert CommitInv(l, record.At(), record.revision - 1);
  }

  // The server's history.

  /** The id whose recorded 201 carries the item at the revision. */
  ghost predicate MadeRevision(t: Tables, id: RequestId, key: Key, revision: int) {
    && id in t.outcomes
    && t.outcomes[id].Created?
    && t.outcomes[id].item.At() == key
    && t.outcomes[id].item.revision == revision
  }

  ghost predicate WasMade(t: Tables, key: Key, revision: int) {
    exists id :: MadeRevision(t, id, key, revision)
  }

  /** The recorded 201s of an item carry the revisions 1..r exactly once each, where r
      is its current revision, and the one at revision k answered the mutation issued
      with `baseRevision` k-1 and the record's content. */
  lemma RevisionHistory(accounts: map<nat, Id>, run: seq<Event>, key: Key)
    ensures var w := Run(accounts, run);
            var t := w.ledger.tables;
            && (forall k: int :: 1 <= k <= t.CurrentRevision(key) ==> WasMade(t, key, k))
            && (forall id, k :: MadeRevision(t, id, key, k) ==>
                  && 1 <= k <= t.CurrentRevision(key)
                  && id in w.issued
                  && w.issued[id].baseRevision == k - 1
                  && Answers(w.issued[id], t.outcomes[id]))
            && (forall id1, id2, k :: MadeRevision(t, id1, key, k) && MadeRevision(t, id2, key, k) ==> id1 == id2)
  {
    RunKeepsInv(accounts, run);
    var w := Run(accounts, run);
    RevisionsAreLogged(w.ledger, key);
    assert OutcomesInv(w);
  }

  lemma RevisionsAreLogged(l: Ledger, key: Key)
    requires LedgerInv(l)
    ensures forall k: int :: 1 <= k <= l.tables.CurrentRevision(key) ==> WasMade(l.tables, key, k)
    ensures forall id, k :: MadeRevision(l.tables, id, key, k) ==>
              && 1 <= k <= l.tables.CurrentRevision(key) == |l.Log(key)|
              && id == RequestId(l.Log(key)[k - 1].account, l.Log(key)[k - 1].mutation.mutationId)
  {
    CurrentRevisionIsLogLength(l, key);
    forall k: int | 1 <= k <= l.tables.CurrentRevision(key)
      ensures WasMade(l.tables, key, k)
    {
      assert CommitInv(l, key, k - 1);
      var c := l.Log(key)[k - 1];
      assert MadeRevision(l.tables, RequestId(c.account, c.mutation.mutationId), key, k);
    }
    forall id, k | MadeRevision(l.tables, id, key, k)
      ensures 1 <= k <= |l.Log(key)|
      ensures id == RequestId(l.Log(key)[k - 1].account, l.Log(key)[k - 1].mutation.mutationId)
    {
      assert OutcomeInv(l, id, l.tables.outcomes[id]);
    }
  }

  /** The current row is the record the last revision's 201 carries. */
  lemma RowIsLastRevision(accounts: map<nat, Id>, run: seq<Event>, key: Key, id: RequestId)
    requires key in Run(accounts, run).ledger.tables.items
    requires var t := Run(accounts, run).ledger.tables; MadeRevision(t, id, key, t.CurrentRevision(key))
    ensures var t := Run(accounts, run).ledger.tables; t.outcomes[id] == Created(t.items[key].record)
  {
    RunKeepsInv(accounts, run);
    LastRevisionIsTheRow(Run(accounts, run).ledger, key, id);
  }

  lemma LastRevisionIsTheRow(l: Ledger, key: Key, id: RequestId)
    requires LedgerInv(l) && key in l.tables.items && MadeRevision(l.tables, id, key, l.tables.CurrentRevision(key))
    ensures l.tables.outcomes[id] == Created(l.tables.items[key].record)
  {
    assert OutcomeInv(l, id, l.tables.outcomes[id]);
    RowIsKnown(l, key);
  }

  /** A recorded reply to an (account, mutationId) stays the same forever, and every
      later delivery of the id gets it. */
  lemma RepliesAreForever(accounts: map<nat, Id>, run: seq<Event>, more: seq<Event>, account: Id, m: Mutation, now: Time)
    requires RequestId(account, m.mutationId) in Run(accounts, run).ledger.tables.outcomes
    ensures var before, after := Run(accounts, run).ledger.tables, Run(accounts, run + more).ledger.tables;
            var id := RequestId(account, m.mutationId);
            && id in after.outcomes
            && after.outcomes[id] == before.outcomes[id]
            && ApplyMutation(after, account, m, now) == (after, before.outcomes[id])
  {
    LaterExtends(accounts, run, more);
  }

  // Edits.

  /** An edit the application enqueued and did not withdraw is queued, or the server
      holds a 201 for its id whose record is the edit, at the revision after its base. */
  lemma EditDurability(accounts: map<nat, Id>, run: seq<Event>, c: nat, mutationId: Id)
    requires c in Run(accounts, run).clients && mutationId in Run(accounts, run).clients[c].owed
    ensures var w := Run(accounts, run);
            var id := RequestId(w.clients[c].account, mutationId);
            && id in w.issued
            && ((mutationId in w.clients[c].queue && w.clients[c].queue[mutationId].mutation == w.issued[id])
                || (w.ledger.Accepted(id) && Answers(w.issued[id], w.ledger.tables.outcomes[id])))
  {
    RunKeepsInv(accounts, run);
    var w := Run(accounts, run);
    assert ClientInv(w, w.clients[c]);
    assert OwedInv(w, w.clients[c].account, w.clients[c].queue, mutationId);
  }

  /** The edit stays owed until the application withdraws it. */
  lemma OnlyWithdrawalForgetsAnEdit(w: World, e: Event, c: nat, mutationId: Id)
    requires c in w.clients && mutationId in w.clients[c].owed
    ensures c in Step(w, e).clients
    ensures mutationId in Step(w, e).clients[c].owed || e == Act(c, Withdraw(mutationId))
  {
    hide MonotonicPut, ApplyMutation, Transact;
  }

  /** Two accepted writes of one run with one (account, mutationId) are one write. */
  lemma EditsApplyAtMostOnce(accounts: map<nat, Id>, run: seq<Event>, k1: Key, j1: nat, k2: Key, j2: nat)
    requires var l := Run(accounts, run).ledger;
             && j1 < |l.Log(k1)| && j2 < |l.Log(k2)|
             && l.Log(k1)[j1].account == l.Log(k2)[j2].account
             && l.Log(k1)[j1].mutation.mutationId == l.Log(k2)[j2].mutation.mutationId
    ensures k1 == k2 && j1 == j2
  {
    RunKeepsInv(accounts, run);
    AcceptedAtMostOnce(Run(accounts, run).ledger, k1, j1, k2, j2);
  }

  // An honest server is never refused.

  /** The server answers for the vault it was asked for. */
  lemma VaultCheckAlwaysPasses(accounts: map<nat, Id>, run: seq<Event>, c: nat, t: nat)
    requires c in Run(accounts, run).clients && Ready(Run(accounts, run).clients[c], PullPut(t))
    ensures var p := Run(accounts, run).clients[c].pulls[t]; p.phase.page.changes[p.phase.applied].vaultId == p.vaultId
  {
    RunKeepsInv(accounts, run);
    var w := Run(accounts, run);
    assert ClientInv(w, w.clients[c]);
    assert PullInv(w, w.clients[c].account, w.clients[c].items, w.clients[c].pulls[t]);
  }
}
