/** What a load, an edit and a lock of the vault session do in the end. */
module WebVaultAnswers {
  import opened Wrappers
  import opened SyncModel
  import opened WebVault
  import opened WebVaultTheorems

  // A load, run through its segments.

  /** What a listed record does: its revision is cached; a tombstone is marked, and any other record that
      opens is cached under the capture's generation. */
  function WithRecord(v: Vault, c: Capture, r: ItemRecord, text: Option<Data>): Vault {
    v.(revisions := v.revisions[r.itemId := r.revision],
       deletedLocally := if r.deleted then v.deletedLocally + {r.itemId} else v.deletedLocally,
       items := if !r.deleted && text.Some? then v.items[r.itemId := Cached(text.value, c.generation)] else v.items)
  }

  /** What a queued edit does: one in conflict or of another vault nothing; a delete marks its item; any
      other that opens is cached over the record, and its item is not deleted any more. */
  function WithQueued(v: Vault, c: Capture, e: QueuedMutation, text: Option<Data>): Vault {
    var m := e.mutation;
    if e.state.Conflicted? || m.vaultId != c.bundle.vaultId then v
    else if m.deleted then v.(deletedLocally := v.deletedLocally + {m.itemId})
    else if text.None? then v
    else v.(items := v.items[m.itemId := Cached(text.value, c.generation)], deletedLocally := v.deletedLocally - {m.itemId})
  }

  function WithRecords(v: Vault, c: Capture, records: seq<ItemRecord>, open: ItemRecord -> Option<Data>): Vault
    decreases |records|
  {
    if records == [] then v else WithRecords(WithRecord(v, c, records[0], open(records[0])), c, records[1..], open)
  }

  function WithQueue(v: Vault, c: Capture, entries: seq<QueuedMutation>, open: Mutation -> Option<Data>): Vault
    decreases |entries|
  {
    if entries == [] then v else WithQueue(WithQueued(v, c, entries[0], open(entries[0].mutation)), c, entries[1..], open)
  }

  /** The worker's answers: each record and each edit that is sent to it opens or fails. */
  function Opened(t: nat, text: Option<Data>): Event {
    Settle(t, if text.Some? then Plaintext(text.value) else Failed)
  }

  function RecordAnswers(t: nat, records: seq<ItemRecord>, open: ItemRecord -> Option<Data>): seq<Event>
    decreases |records|
  {
    if records == [] then []
    else (if records[0].deleted then [] else [Opened(t, open(records[0]))]) + RecordAnswers(t, records[1..], open)
  }

  predicate IsSent(c: Capture, e: QueuedMutation) {
    !e.state.Conflicted? && e.mutation.vaultId == c.bundle.vaultId && !e.mutation.deleted
  }

  function QueueAnswers(t: nat, c: Capture, entries: seq<QueuedMutation>, open: Mutation -> Option<Data>): seq<Event>
    decreases |entries|
  {
    if entries == [] then []
    else (if IsSent(c, entries[0]) then [Opened(t, open(entries[0].mutation))] else []) + QueueAnswers(t, c, entries[1..], open)
  }

  /** The task has come to where the outcome says. */
  predicate IsAt(s: State, others: map<nat, Task>, t: nat, o: Outcome) {
    && s.vault == o.vault && t < s.next && o.enqueued.None?
    && s.tasks == if o.next.Some? then others[t := o.next.value] else others - {t}
  }

  lemma StepTo(s: State, others: map<nat, Task>, t: nat, o: Outcome, answer: Answer)
    requires IsAt(s, others, t, o) && o.next.Some? && Advance(o.vault, o.next.value, answer).enqueued.None?
    ensures IsAt(Step(s, Settle(t, answer)), others, t, Advance(o.vault, o.next.value, answer))
    ensures Step(s, Settle(t, answer)).enqueued == s.enqueued
  {
    var next := Advance(o.vault, o.next.value, answer).next;
    assert next.Some? ==> others[t := o.next.value][t := next.value] == others[t := next.value];
    assert others[t := o.next.value] - {t} == others - {t};
  }

  lemma {:induction false} RecordsRun(s: State, others: map<nat, Task>, t: nat, v: Vault, c: Capture, records: seq<ItemRecord>, open: ItemRecord -> Option<Data>)
    requires v.IsCurrent(c.generation) && IsAt(s, others, t, LoadRecords(v, c, records))
    ensures var w := Run(s, RecordAnswers(t, records, open));
            IsAt(w, others, t, Continue(WithRecords(v, c, records, open), ListingQueue(c))) && w.enqueued == s.enqueued
    decreases |records|
  {
    hide Step, IsAt;
    if records != [] {
      var text := open(records[0]);
      var v1, rest := WithRecord(v, c, records[0], text), records[1..];
      var answers := RecordAnswers(t, records, open);
      if records[0].deleted {
        assert answers == RecordAnswers(t, rest, open);
        RecordsRun(s, others, t, v1, c, rest, open);
      } else {
        assert answers[0] == Opened(t, text) && answers[1..] == RecordAnswers(t, rest, open);
        LoadRecordsKeeps(v1, c, rest);
        StepTo(s, others, t, LoadRecords(v, c, records), Opened(t, text).answer);
        RecordsRun(Step(s, answers[0]), others, t, v1, c, rest, open);
      }
    }
  }

  lemma {:induction false} QueueRun(s: State, others: map<nat, Task>, t: nat, v: Vault, c: Capture, entries: seq<QueuedMutation>, open: Mutation -> Option<Data>)
    requires v.IsCurrent(c.generation) && IsAt(s, others, t, LoadQueue(v, c, entries))
    ensures var w := Run(s, QueueAnswers(t, c, entries, open));
            IsAt(w, others, t, Return(WithQueue(v, c, entries, open))) && w.enqueued == s.enqueued
    decreases |entries|
  {
    hide Step, IsAt;
    if entries != [] {
      var text := open(entries[0].mutation);
      var v1, rest := WithQueued(v, c, entries[0], text), entries[1..];
      var answers := QueueAnswers(t, c, entries, open);
      if !IsSent(c, entries[0]) {
        assert answers == QueueAnswers(t, c, rest, open);
        QueueRun(s, others, t, v1, c, rest, open);
      } else {
        assert answers[0] == Opened(t, text) && answers[1..] == QueueAnswers(t, c, rest, open);
        LoadQueueKeeps(v1, c, rest);
        StepTo(s, others, t, LoadQueue(v, c, entries), Opened(t, text).answer);
        QueueRun(Step(s, answers[0]), others, t, v1, c, rest, open);
      }
    }
  }

  lemma {:induction false} RunConcat(s: State, a: seq<Event>, b: seq<Event>)
    ensures Run(s, a + b) == Run(Run(s, a), b)
    decreases |a|
  {
    if a == [] {
      assert a + b == b;
    } else {
      assert (a + b)[1..] == a[1..] + b;
      RunConcat(Step(s, a[0]), a[1..], b);
    }
  }

  /** A load whose capture is current runs its segments to the end: one pass over the records, then one
      over the queue, each entry with its own effect; the other tasks stay as they are. */
  lemma LoadRunsThrough(
    events: seq<Event>, t: nat, c: Capture, records: seq<ItemRecord>, open: ItemRecord -> Option<Data>,
    entries: seq<QueuedMutation>, openQueued: Mutation -> Option<Data>)
    requires var s := Run(INIT, events); t in s.tasks && s.tasks[t] == ListingItems(c) && s.vault.IsCurrent(c.generation)
    ensures var s := Run(INIT, events);
            var w := Run(s, [Settle(t, Items(records))] + RecordAnswers(t, records, open)
                            + [Settle(t, Queue(entries))] + QueueAnswers(t, c, entries, openQueued));
            && w.vault == WithQueue(WithRecords(s.vault, c, records, open), c, entries, openQueued)
            && w.tasks == s.tasks - {t} && w.enqueued == s.enqueued
  {
    RunKeepsInv(INIT, events);
    LoadFrom(Run(INIT, events), t, c, records, open, entries, openQueued);
  }

  lemma LoadFrom(
    s: State, t: nat, c: Capture, records: seq<ItemRecord>, open: ItemRecord -> Option<Data>,
    entries: seq<QueuedMutation>, openQueued: Mutation -> Option<Data>)
    requires t in s.tasks && t < s.next && s.tasks[t] == ListingItems(c) && s.vault.IsCurrent(c.generation)
    ensures var w := Run(s, [Settle(t, Items(records))] + RecordAnswers(t, records, open)
                            + [Settle(t, Queue(entries))] + QueueAnswers(t, c, entries, openQueued));
            && w.vault == WithQueue(WithRecords(s.vault, c, records, open), c, entries, openQueued)
            && w.tasks == s.tasks - {t} && w.enqueued == s.enqueued
  {
    var a, b := [Settle(t, Items(records))] + RecordAnswers(t, records, open), [Settle(t, Queue(entries))];
    var q := QueueAnswers(t, c, entries, openQueued);
    var v1 := WithRecords(s.vault, c, records, open);
    assert IsAt(s, s.tasks, t, Continue(s.vault, ListingItems(c)));
    LoadRecordsKeeps(s.vault, c, records);
    StepTo(s, s.tasks, t, Continue(s.vault, ListingItems(c)), Items(records));
    var s1 := Step(s, Settle(t, Items(records)));
    RecordsRun(s1, s.tasks, t, s.vault, c, records, open);
    assert a[0] == Settle(t, Items(records)) && a[1..] == RecordAnswers(t, records, open);
    var s2 := Run(s, a);
    RecordsKeepCurrent(s.vault, c, records, open);
    LoadQueueKeeps(v1, c, entries);
    StepTo(s2, s.tasks, t, Continue(v1, ListingQueue(c)), Queue(entries));
    var s3 := Step(s2, b[0]);
    QueueRun(s3, s.tasks, t, v1, c, entries, openQueued);
    RunThen(s, a, b[0]);
    RunConcat(s, a + b, q);
  }

  lemma {:induction false} RecordsKeepCurrent(v: Vault, c: Capture, records: seq<ItemRecord>, open: ItemRecord -> Option<Data>)
    requires v.IsCurrent(c.generation)
    ensures WithRecords(v, c, records, open).IsCurrent(c.generation)
    decreases |records|
  {
    if records != [] {
      RecordsKeepCurrent(WithRecord(v, c, records[0], open(records[0])), c, records[1..], open);
    }
  }

  /** An unlock that the worker answers opens the vault under a generation of its own, and loads. */
  lemma UnlockLoads(events: seq<Event>, target: Bundle, session: nat)
    ensures var s := Run(INIT, events);
            var w := Step(Step(s, Start(Unlock(target))), Settle(s.next, Handle(session)));
            && w.vault == s.vault.(session := Some(session), bundle := Some(target), generation := s.vault.generation + 1)
            && w.tasks == s.tasks[s.next := ListingItems(Capture(s.vault.generation + 1, session, target))]
  {
    RunKeepsInv(INIT, events);
    var s := Run(INIT, events);
    hide Run;
    var mid := Step(s, Start(Unlock(target)));
    assert mid.tasks[s.next] == Unlocking(target) && mid.next == s.next + 1;
    assert s.tasks[s.next := Unlocking(target)][s.next := ListingItems(Capture(s.vault.generation + 1, session, target))]
        == s.tasks[s.next := ListingItems(Capture(s.vault.generation + 1, session, target))];
  }

  // An edit, run through its segments.

  /** The edit is accepted: the vault is open, a text is valid, and only a cached item is deleted. */
  predicate AcceptsEdit(v: Vault, edit: Edit, valid: bool) {
    v.session.Some? && v.bundle.Some? && (if edit.Delete? then edit.itemId in v.items else valid)
  }

  /** The mutation of an accepted edit whose seal is answered at once. */
  function MutationOf(v: Vault, edit: Edit, mutationId: Id, ciphertext: string): Mutation
    requires v.bundle.Some?
  {
    Mutation(
      mutationId, edit.itemId, v.bundle.value.vaultId,
      match edit { case Resolve(_, _, revision, _) => revision case _ => Revision(v, edit.itemId) },
      ciphertext, "crypto-envelope/v1", edit.Delete?)
  }

  /** The vault after an edit of its current generation: a save or resolution is cached and its item is not
      deleted any more, a delete marks its item. */
  function Edited(v: Vault, edit: Edit): Vault {
    match edit
    case Delete(id) => v.(deletedLocally := v.deletedLocally + {id})
    case Save(id, data) => v.(items := v.items[id := Cached(data, v.generation)], deletedLocally := v.deletedLocally - {id})
    case Resolve(id, data, _, _) => v.(items := v.items[id := Cached(data, v.generation)], deletedLocally := v.deletedLocally - {id})
  }

  lemma EditStarts(s: State, edit: Edit, valid: bool)
    requires TasksInv(s)
    ensures var w := Step(s, Start(Change(edit, valid)));
            && w.vault == s.vault && w.enqueued == s.enqueued && w.next == s.next + 1
            && (if AcceptsEdit(s.vault, edit, valid)
                then w.tasks == s.tasks[s.next := Sealing(Capture(s.vault.generation, s.vault.session.value, s.vault.bundle.value), edit)]
                else w.tasks == s.tasks)
  {
    assert s.tasks - {s.next} == s.tasks;
  }

  /** Each answer that an edit awaits. */
  lemma EditMoves(s: State, t: nat, mutationId: Id, ciphertext: string)
    requires t in s.tasks && t < s.next
    ensures s.tasks[t].Sealing? ==>
              var m := EditMutation(s.vault, s.tasks[t].capture, s.tasks[t].edit, mutationId, ciphertext);
              var w := Step(s, Settle(t, Sealed(mutationId, ciphertext)));
              && w.vault == s.vault && w.enqueued == s.enqueued && w.next == s.next
              && w.tasks == s.tasks[t := if s.tasks[t].edit.Resolve? then Dequeuing(s.tasks[t].capture, s.tasks[t].edit, m)
                                         else Storing(s.tasks[t].capture, s.tasks[t].edit, m)]
    ensures s.tasks[t].Dequeuing? ==>
              var w := Step(s, Settle(t, Done));
              && w.vault == s.vault && w.enqueued == s.enqueued && w.next == s.next
              && w.tasks == s.tasks[t := Storing(s.tasks[t].capture, s.tasks[t].edit, s.tasks[t].mutation)]
    ensures s.tasks[t].Storing? ==>
              var w := Step(s, Settle(t, Done));
              && w.vault == s.vault && w.enqueued == s.enqueued + [Enqueued(t, s.tasks[t].mutation)] && w.next == s.next
              && w.tasks == s.tasks[t := Stored(s.tasks[t].capture, s.tasks[t].edit, s.tasks[t].mutation)]
  {
  }

  /** The end of an edit, whatever came between: a delete marks its item under any generation, and a save
      or resolution is cached if its capture is current. */
  lemma EditEnds(events: seq<Event>, t: nat)
    requires var s := Run(INIT, events); t in s.tasks && s.tasks[t].Stored?
    ensures var s := Run(INIT, events);
            var w := Step(s, Settle(t, Done));
            var edit, current := s.tasks[t].edit, s.tasks[t].capture.generation == s.vault.generation && s.vault.session.Some?;
            && w.vault == (if edit.Delete? || current then Edited(s.vault, edit) else s.vault)
            && w.tasks == s.tasks - {t} && w.enqueued == s.enqueued
  {
    RunKeepsInv(INIT, events);
  }

  /** The answers of an edit whose calls succeed: the seal, for a resolution the removal of the old entry,
      and the queue's entry; then the method returns. */
  function EditAnswers(t: nat, edit: Edit, mutationId: Id, ciphertext: string): seq<Event> {
    [Settle(t, Sealed(mutationId, ciphertext))] + (if edit.Resolve? then [Settle(t, Done)] else []) + [Settle(t, Done)] + [Settle(t, Done)]
  }

  /** An edit that is accepted and runs through enqueues its mutation, on the conflict's revision for a
      resolution and on the cached one otherwise, and is then seen in the vault. One that is refused does nothing. */
  lemma EditRunsThrough(events: seq<Event>, edit: Edit, valid: bool, mutationId: Id, ciphertext: string)
    ensures var s := Run(INIT, events);
            var begun := Step(s, Start(Change(edit, valid)));
            if AcceptsEdit(s.vault, edit, valid) then
              var w := Run(begun, EditAnswers(s.next, edit, mutationId, ciphertext));
              && w.enqueued == s.enqueued + [Enqueued(s.next, MutationOf(s.vault, edit, mutationId, ciphertext))]
              && w.vault == Edited(s.vault, edit) && w.tasks == s.tasks
            else begun.vault == s.vault && begun.tasks == s.tasks && begun.enqueued == s.enqueued
  {
    RunKeepsInv(INIT, events);
    EditStarts(Run(INIT, events), edit, valid);
    if AcceptsEdit(Run(INIT, events).vault, edit, valid) {
      EditFrom(Run(INIT, events), edit, valid, mutationId, ciphertext);
    }
  }

  lemma EditFrom(s: State, edit: Edit, valid: bool, mutationId: Id, ciphertext: string)
    requires TasksInv(s) && AcceptsEdit(s.vault, edit, valid)
    ensures var w := Run(Step(s, Start(Change(edit, valid))), EditAnswers(s.next, edit, mutationId, ciphertext));
            && w.enqueued == s.enqueued + [Enqueued(s.next, MutationOf(s.vault, edit, mutationId, ciphertext))]
            && w.vault == Edited(s.vault, edit) && w.tasks == s.tasks
  {
    EditStarts(s, edit, valid);
    var t, s0 := s.next, Step(s, Start(Change(edit, valid)));
    var seal, done := Settle(t, Sealed(mutationId, ciphertext)), Settle(t, Done);
    var c := Capture(s.vault.generation, s.vault.session.value, s.vault.bundle.value);
    var m := MutationOf(s.vault, edit, mutationId, ciphertext);
    assert m == EditMutation(s.vault, c, edit, mutationId, ciphertext);
    EditMoves(s0, t, mutationId, ciphertext);
    var s1 := Step(s0, seal);
    EditMoves(s1, t, mutationId, ciphertext);
    var s2 := if edit.Resolve? then Step(s1, done) else s1;
    EditMoves(s2, t, mutationId, ciphertext);
    var s3 := Step(s2, done);
    hide EditMutation, MutationOf;
    assert s3.vault == s.vault && s3.tasks == s.tasks[t := Stored(c, edit, m)] && s3.enqueued == s.enqueued + [Enqueued(t, m)];
    LastAnswer(s, s3, t, c, edit, m);
    RunsFour(s0, seal, done, edit);
  }

  lemma LastAnswer(s: State, s3: State, t: nat, c: Capture, edit: Edit, m: Mutation)
    requires TasksInv(s) && t == s.next && t < s3.next && s.vault.session.Some? && c.generation == s.vault.generation
    requires s3.vault == s.vault && s3.tasks == s.tasks[t := Stored(c, edit, m)]
    ensures var w := Step(s3, Settle(t, Done)); w.vault == Edited(s.vault, edit) && w.tasks == s.tasks && w.enqueued == s3.enqueued
  {
    assert s.tasks[t := Stored(c, edit, m)] - {t} == s.tasks;
  }

  lemma RunsFour(s: State, seal: Event, done: Event, edit: Edit)
    ensures var sealed := Step(s, seal);
            var stored := Step(if edit.Resolve? then Step(sealed, done) else sealed, done);
            Run(s, [seal] + (if edit.Resolve? then [done] else []) + [done] + [done]) == Step(stored, done)
  {
    var a := [seal] + if edit.Resolve? then [done] else [];
    RunThen(s, [], seal);
    RunThen(s, [seal], done);
    assert [] + [seal] == [seal] && [seal] + [] == [seal];
    RunThen(s, a, done);
    RunThen(s, a + [done], done);
  }

  /** A resolution removes the entry in conflict before it enqueues: until that is done nothing is enqueued,
      and if it fails nothing ever is. */
  lemma ResolutionDequeuesFirst(events: seq<Event>, t: nat, mutationId: Id, ciphertext: string)
    requires var s := Run(INIT, events); t in s.tasks && s.tasks[t].Sealing? && s.tasks[t].edit.Resolve?
    ensures var s := Run(INIT, events);
            var sealed := Step(s, Settle(t, Sealed(mutationId, ciphertext)));
            && sealed.enqueued == s.enqueued && t in sealed.tasks && !sealed.tasks[t].Storing?
            && Step(sealed, Settle(t, Done)).enqueued == s.enqueued
            && Step(sealed, Settle(t, Failed)).enqueued == s.enqueued && t !in Step(sealed, Settle(t, Failed)).tasks
            && sealed.tasks[t].mutation.baseRevision == s.tasks[t].edit.currentRevision
  {
    RunKeepsInv(INIT, events);
    hide Run;
  }

  /** A call that fails ends its method, and neither the vault nor the queue is touched. */
  lemma FailuresEnd(events: seq<Event>, t: nat)
    requires var s := Run(INIT, events);
             && t in s.tasks
             && var task := s.tasks[t];
                task.Unlocking? || task.ListingItems? || task.ListingQueue? || task.Sealing? || task.Dequeuing? || task.Storing? || task.Undoing?
    ensures var s := Run(INIT, events);
            var w := Step(s, Settle(t, Failed));
            w.vault == s.vault && w.tasks == s.tasks - {t} && w.enqueued == s.enqueued
  {
    RunKeepsInv(INIT, events);
  }

  /** An undo that finds its mutation queued unmarks the item. */
  lemma UndoUnmarks(events: seq<Event>, t: nat)
    requires var s := Run(INIT, events); t in s.tasks && s.tasks[t].Undoing?
    ensures var s := Run(INIT, events);
            var w := Step(s, Settle(t, Done));
            w.vault == s.vault.(deletedLocally := s.vault.deletedLocally - {s.tasks[t].itemId}) && w.tasks == s.tasks - {t}
  {
    RunKeepsInv(INIT, events);
  }

  /** A lock that completes leaves nothing, in the next generation. */
  lemma LockLeavesNothing(events: seq<Event>, lock: Event)
    requires CompletesLock(Run(INIT, events), lock)
    ensures Step(Run(INIT, events), lock).vault == Vault(None, None, Run(INIT, events).vault.generation + 1, map[], map[], {})
  {
  }
}
