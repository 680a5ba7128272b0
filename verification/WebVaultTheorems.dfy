/** Locking, over every interleaving of calls and answers. */
module WebVaultTheorems {
  import opened Wrappers
  import opened SyncModel
  import opened WebVault
  import opened WebVaultSources

  // What every reachable state satisfies.

  predicate TaskInv(v: Vault, task: Task) {
    task.Captured() ==> task.capture.generation <= v.generation
  }

  ghost predicate TasksInv(s: State) {
    forall t | t in s.tasks :: t < s.next && TaskInv(s.vault, s.tasks[t])
  }

  ghost predicate StampsInv(v: Vault) {
    forall id | id in v.items :: v.items[id].generation <= v.generation
  }

  ghost predicate Inv(s: State) {
    && (s.vault.session.None? ==> s.vault.NothingCached())
    && TasksInv(s)
    && StampsInv(s.vault)
  }

  /** What a segment may do to the fields. */
  ghost predicate SegmentKeeps(v: Vault, o: Outcome) {
    && v.generation <= o.vault.generation
    && (o.next.Some? ==> TaskInv(o.vault, o.next.value))
    && ((v.session.None? ==> v.NothingCached()) ==> (o.vault.session.None? ==> o.vault.NothingCached()))
    && (StampsInv(v) ==> StampsInv(o.vault))
  }

  /** Segments of one load: the session and the generation stay, and only a current capture writes. */
  ghost predicate LoadKeeps(v: Vault, c: Capture, o: Outcome) {
    && o.vault.generation == v.generation && o.vault.session == v.session && o.vault.bundle == v.bundle
    && (o.next.Some? ==> o.next.value.Captured() && o.next.value.capture == c)
    && o.enqueued.None?
    && (!v.IsCurrent(c.generation) ==> o.vault == v && o.next.None?)
    && (forall id | id in o.vault.items :: o.vault.items[id].generation == c.generation || (id in v.items && o.vault.items[id] == v.items[id]))
  }

  lemma {:induction false} LoadRecordsKeeps(v: Vault, c: Capture, records: seq<ItemRecord>)
    ensures LoadKeeps(v, c, LoadRecords(v, c, records))
    decreases |records|
  {
    if v.IsCurrent(c.generation) && records != [] && records[0].deleted {
      var seen := v.(revisions := v.revisions[records[0].itemId := records[0].revision]);
      LoadRecordsKeeps(seen.(deletedLocally := v.deletedLocally + {records[0].itemId}), c, records[1..]);
    }
  }

  lemma {:induction false} LoadQueueKeeps(v: Vault, c: Capture, entries: seq<QueuedMutation>)
    ensures LoadKeeps(v, c, LoadQueue(v, c, entries))
    decreases |entries|
  {
    if v.IsCurrent(c.generation) && entries != [] {
      var m := entries[0].mutation;
      if entries[0].state.Conflicted? || m.vaultId != c.bundle.vaultId {
        LoadQueueKeeps(v, c, entries[1..]);
      } else if m.deleted {
        LoadQueueKeeps(v.(deletedLocally := v.deletedLocally + {m.itemId}), c, entries[1..]);
      }
    }
  }

  lemma RecordOpenedKeeps(v: Vault, c: Capture, records: seq<ItemRecord>, data: Option<Data>)
    ensures var o := RecordOpened(v, c, records, data);
            LoadKeeps(v, c, o) || (records == [] && o == Return(v))
  {
    if records != [] {
      LoadRecordsKeeps(v, c, records[1..]);
      if data.Some? {
        LoadRecordsKeeps(CacheItem(v, c, records[0].itemId, data.value), c, records[1..]);
      }
    }
  }

  lemma QueuedOpenedKeeps(v: Vault, c: Capture, entries: seq<QueuedMutation>, data: Option<Data>)
    ensures var o := QueuedOpened(v, c, entries, data);
            LoadKeeps(v, c, o) || (entries == [] && o == Return(v))
  {
    if entries != [] {
      LoadQueueKeeps(v, c, entries[1..]);
      if data.Some? {
        var id := entries[0].mutation.itemId;
        var cached := CacheItem(v, c, id, data.value).(deletedLocally := v.deletedLocally - {id});
        LoadQueueKeeps(cached, c, entries[1..]);
      }
    }
  }

  /** Any step of a load task. */
  lemma LoadStepKeeps(v: Vault, task: Task, answer: Answer)
    requires task.ListingItems? || task.OpeningRecord? || task.ListingQueue? || task.OpeningQueued?
    ensures var o := Advance(v, task, answer);
            || LoadKeeps(v, task.capture, o)
            || o == Return(v)
            || o == Continue(v, task)
  {
    match task {
      case ListingItems(c) => if answer.Items? { LoadRecordsKeeps(v, c, answer.records); }
      case OpeningRecord(c, records) =>
        RecordOpenedKeeps(v, c, records, if answer.Plaintext? then Some(answer.data) else None);
      case ListingQueue(c) => if answer.Queue? { LoadQueueKeeps(v, c, answer.entries); }
      case OpeningQueued(c, entries) =>
        QueuedOpenedKeeps(v, c, entries, if answer.Plaintext? then Some(answer.data) else None);
    }
  }

  lemma AdvanceKeeps(v: Vault, task: Task, answer: Answer)
    requires TaskInv(v, task)
    ensures SegmentKeeps(v, Advance(v, task, answer))
  {
    if task.ListingItems? || task.OpeningRecord? || task.ListingQueue? || task.OpeningQueued? {
      LoadStepKeeps(v, task, answer);
    }
  }

  lemma StepKeepsInv(s: State, event: Event)
    requires Inv(s)
    ensures Inv(Step(s, event)) && s.vault.generation <= Step(s, event).vault.generation
  {
    if event.Settle? && event.task in s.tasks {
      AdvanceKeeps(s.vault, s.tasks[event.task], event.answer);
    }
  }

  lemma {:induction false} RunKeepsInv(s: State, events: seq<Event>)
    requires Inv(s)
    ensures Inv(Run(s, events)) && s.vault.generation <= Run(s, events).vault.generation
    decreases |events|
  {
    if events != [] {
      StepKeepsInv(s, events[0]);
      RunKeepsInv(Step(s, events[0]), events[1..]);
    }
  }

  /** A locked vault has empty caches, in every state of every run. */
  lemma LockedMeansEmpty(events: seq<Event>)
    ensures var v := Run(INIT, events).vault;
            v.session.None? ==> v.items == map[] && v.revisions == map[]
  {
    RunKeepsInv(INIT, events);
  }

  // A completed lock ends the writes of everything that had captured before it.

  /** The task has ended, or still holds the same outdated capture. */
  predicate Outdated(s: State, t: nat, c: Capture) {
    && t < s.next
    && c.generation < s.vault.generation
    && (t in s.tasks ==> s.tasks[t].Captured() && s.tasks[t].capture == c)
  }

  lemma AdvanceKeepsCapture(v: Vault, task: Task, answer: Answer)
    requires task.Captured()
    ensures var o := Advance(v, task, answer);
            o.next.Some? ==> o.next.value.Captured() && o.next.value.capture == task.capture
  {
    if task.ListingItems? || task.OpeningRecord? || task.ListingQueue? || task.OpeningQueued? {
      LoadStepKeeps(v, task, answer);
    }
  }

  lemma StepKeepsOutdated(s: State, event: Event, t: nat, c: Capture)
    requires Inv(s) && Outdated(s, t, c)
    ensures Outdated(Step(s, event), t, c)
  {
    StepKeepsInv(s, event);
    if event.Settle? && event.task == t && t in s.tasks {
      AdvanceKeepsCapture(s.vault, s.tasks[t], event.answer);
    }
  }

  lemma {:induction false} RunKeepsOutdated(s: State, events: seq<Event>, t: nat, c: Capture)
    requires Inv(s) && Outdated(s, t, c)
    ensures Outdated(Run(s, events), t, c) && Inv(Run(s, events))
    decreases |events|
  {
    if events != [] {
      StepKeepsOutdated(s, events[0], t, c);
      StepKeepsInv(s, events[0]);
      RunKeepsOutdated(Step(s, events[0]), events[1..], t, c);
    }
  }

  /** The step of an outdated task writes neither cache. */
  lemma OutdatedStepWritesNothing(s: State, t: nat, c: Capture, answer: Answer)
    requires Outdated(s, t, c)
    ensures var v, w := s.vault, Step(s, Settle(t, answer)).vault;
            w.items == v.items && w.revisions == v.revisions && w.session == v.session && w.generation == v.generation
  {
    if t in s.tasks {
      var task := s.tasks[t];
      if task.ListingItems? || task.OpeningRecord? || task.ListingQueue? || task.OpeningQueued? {
        LoadStepKeeps(s.vault, task, answer);
      }
    }
  }

  /** The event completes a lock: its `finally` block runs. */
  predicate CompletesLock(s: State, event: Event) {
    || (event == Start(Lock) && s.vault.session.None?)
    || (event.Settle? && event.task in s.tasks && event.task != s.next && s.tasks[event.task].Locking?
        && (event.answer.Done? || event.answer.Failed?))
  }

  /** Whatever had captured its generation when a lock completed never writes a cache
      again, however long the run goes on, and also after later unlocks. */
  lemma LockedOutForever(before: seq<Event>, lock: Event, after: seq<Event>, t: nat, answer: Answer)
    requires CompletesLock(Run(INIT, before), lock)
    requires var s := Run(INIT, before); t in s.tasks && s.tasks[t].Captured()
    ensures var s := Run(Step(Run(INIT, before), lock), after);
            && Outdated(s, t, Run(INIT, before).tasks[t].capture)
            && Step(s, Settle(t, answer)).vault.items == s.vault.items
            && Step(s, Settle(t, answer)).vault.revisions == s.vault.revisions
  {
    RunKeepsInv(INIT, before);
    var s := Run(INIT, before);
    var c := s.tasks[t].capture;
    StepKeepsInv(s, lock);
    assert Outdated(Step(s, lock), t, c);
    RunKeepsOutdated(Step(s, lock), after, t, c);
    OutdatedStepWritesNothing(Run(Step(s, lock), after), t, c, answer);
  }

  // The encrypted mutation is durable all the same.

  /** The mutations a task enqueued, in order. */
  function EnqueuedBy(log: seq<Enqueued>, t: nat): seq<Mutation> {
    if log == [] then []
    else EnqueuedBy(log[..|log| - 1], t) + if log[|log| - 1].task == t then [log[|log| - 1].mutation] else []
  }

  lemma EnqueuedBySnoc(log: seq<Enqueued>, entry: Enqueued, t: nat)
    ensures EnqueuedBy(log + [entry], t) == EnqueuedBy(log, t) + if entry.task == t then [entry.mutation] else []
  {
    assert (log + [entry])[..|log|] == log;
  }

  /** What a step adds to the mutations of a task. */
  lemma StepEnqueues(s: State, event: Event, t: nat)
    ensures EnqueuedBy(Step(s, event).enqueued, t)
         == EnqueuedBy(s.enqueued, t)
            + if event.Settle? && event.task == t && t in s.tasks && t != s.next && s.tasks[t].Storing? && event.answer.Done?
              then [s.tasks[t].mutation] else []
  {
    hide EnqueuedBy, Advance;
    if event.Settle? && event.task in s.tasks && event.task != s.next {
      AdvanceEnqueues(s.vault, s.tasks[event.task], event.answer);
      var o := Advance(s.vault, s.tasks[event.task], event.answer);
      if o.enqueued.Some? {
        EnqueuedBySnoc(s.enqueued, Enqueued(event.task, o.enqueued.value), t);
      }
    }
  }

  lemma AdvanceEnqueues(v: Vault, task: Task, answer: Answer)
    ensures Advance(v, task, answer).enqueued == if task.Storing? && answer.Done? then Some(task.mutation) else None
  {
    if task.ListingItems? || task.OpeningRecord? || task.ListingQueue? || task.OpeningQueued? {
      LoadStepKeeps(v, task, answer);
    }
  }

  /** A task that is still to start has enqueued nothing. */
  lemma {:induction false} LaterTasksEnqueuedNothing(s: State, events: seq<Event>, t: nat)
    requires Inv(s) && EnqueuedBy(s.enqueued, t) == [] && s.next <= Run(s, events).next <= t
    ensures EnqueuedBy(Run(s, events).enqueued, t) == []
    decreases |events|
  {
    hide Step, EnqueuedBy, StampsInv;
    if events != [] {
      StepEnqueues(s, events[0], t);
      StepKeepsInv(s, events[0]);
      RunOnlyNumbersUp(Step(s, events[0]), events[1..]);
      LaterTasksEnqueuedNothing(Step(s, events[0]), events[1..], t);
    }
  }

  lemma {:induction false} RunOnlyNumbersUp(s: State, events: seq<Event>)
    ensures s.next <= Run(s, events).next
    decreases |events|
  {
    if events != [] {
      RunOnlyNumbersUp(Step(s, events[0]), events[1..]);
    }
  }

  /** The task still awaits the worker's seal of this edit. */
  predicate AwaitsSeal(s: State, t: nat, c: Capture, edit: Edit) {
    t < s.next && t in s.tasks && s.tasks[t] == Sealing(c, edit) && EnqueuedBy(s.enqueued, t) == []
  }

  /** The sealed mutation is on its way to the queue, or it is all that its task enqueued. */
  predicate Carried(s: State, t: nat, c: Capture, edit: Edit, m: Mutation) {
    && t < s.next
    && if t in s.tasks && !s.tasks[t].Stored? then
         EnqueuedBy(s.enqueued, t) == [] && (s.tasks[t] == Dequeuing(c, edit, m) || s.tasks[t] == Storing(c, edit, m))
       else
         EnqueuedBy(s.enqueued, t) == [m] && (t in s.tasks ==> s.tasks[t] == Stored(c, edit, m))
  }

  predicate Survives(events: seq<Event>, t: nat) {
    forall j | 0 <= j < |events| :: events[j] != Settle(t, Failed)
  }

  predicate NotSealed(events: seq<Event>, t: nat) {
    forall j | 0 <= j < |events| :: events[j].Settle? && events[j].task == t ==> !events[j].answer.Sealed?
  }

  lemma StepKeepsAwaitsSeal(s: State, event: Event, t: nat, c: Capture, edit: Edit)
    requires AwaitsSeal(s, t, c, edit) && Survives([event], t) && NotSealed([event], t)
    ensures AwaitsSeal(Step(s, event), t, c, edit)
  {
    assert [event][0] == event;
    StepEnqueues(s, event, t);
  }

  lemma {:induction false} RunKeepsAwaitsSeal(s: State, events: seq<Event>, t: nat, c: Capture, edit: Edit)
    requires AwaitsSeal(s, t, c, edit) && Survives(events, t) && NotSealed(events, t)
    ensures AwaitsSeal(Run(s, events), t, c, edit)
    decreases |events|
  {
    if events != [] {
      assert [events[0]][0] == events[0];
      StepKeepsAwaitsSeal(s, events[0], t, c, edit);
      RunKeepsAwaitsSeal(Step(s, events[0]), events[1..], t, c, edit);
    }
  }

  lemma StepKeepsCarried(s: State, event: Event, t: nat, c: Capture, edit: Edit, m: Mutation)
    requires Carried(s, t, c, edit, m) && event != Settle(t, Failed)
    ensures Carried(Step(s, event), t, c, edit, m)
  {
    hide EnqueuedBy, LoadRecords, LoadQueue, EditSealed, FinishEdit;
    StepEnqueues(s, event, t);
  }

  lemma {:induction false} RunKeepsCarried(s: State, events: seq<Event>, t: nat, c: Capture, edit: Edit, m: Mutation)
    requires Carried(s, t, c, edit, m) && Survives(events, t)
    ensures Carried(Run(s, events), t, c, edit, m)
    decreases |events|
  {
    if events != [] {
      StepKeepsCarried(s, events[0], t, c, edit, m);
      RunKeepsCarried(Step(s, events[0]), events[1..], t, c, edit, m);
    }
  }

  /** What the object captures when an edit is accepted. */
  function CaptureOf(v: Vault): Capture
    requires v.Unlocked()
  {
    Capture(v.generation, v.session.value, v.bundle.value)
  }

  /** The steps of one edit: accepted after `before`, sealed after `waiting`, then `after`. */
  ghost predicate IsEditRun(before: seq<Event>, edit: Edit, valid: bool, waiting: seq<Event>, after: seq<Event>) {
    var began := Run(INIT, before);
    && BeginEdit(began.vault, edit, valid).next.Some?
    && Survives(waiting, began.next) && NotSealed(waiting, began.next) && Survives(after, began.next)
  }

  function BeganEdit(before: seq<Event>, edit: Edit, valid: bool): State {
    Step(Run(INIT, before), Start(Change(edit, valid)))
  }

  /** The mutation the worker's answer makes of the edit, at the instant of the answer. */
  function SealedMutation(
    before: seq<Event>, edit: Edit, valid: bool, waiting: seq<Event>, mutationId: Id, ciphertext: string): Mutation
    requires Run(INIT, before).vault.Unlocked()
  {
    EditMutation(Run(BeganEdit(before, edit, valid), waiting).vault, CaptureOf(Run(INIT, before).vault), edit, mutationId, ciphertext)
  }

  lemma AcceptedAwaitsSeal(s: State, edit: Edit, valid: bool)
    requires BeginEdit(s.vault, edit, valid).next.Some? && EnqueuedBy(s.enqueued, s.next) == []
    ensures s.vault.Unlocked() && AwaitsSeal(Step(s, Start(Change(edit, valid))), s.next, CaptureOf(s.vault), edit)
  {
    StepEnqueues(s, Start(Change(edit, valid)), s.next);
  }

  lemma SealIsCarried(s: State, t: nat, c: Capture, edit: Edit, mutationId: Id, ciphertext: string)
    requires AwaitsSeal(s, t, c, edit)
    ensures Carried(Step(s, Settle(t, Sealed(mutationId, ciphertext))), t, c, edit, EditMutation(s.vault, c, edit, mutationId, ciphertext))
  {
    StepEnqueues(s, Settle(t, Sealed(mutationId, ciphertext)), t);
  }

  /** A save, delete or resolution whose worker and repository calls do not fail: through any run,
      locked or not, the mutation with the worker's ciphertext and id, for the captured vault, is
      carried to the queue. The edit had enqueued nothing when it began, and when it has ended it has
      enqueued exactly this mutation, once. */
  lemma EditsReachTheQueue(
    before: seq<Event>, edit: Edit, valid: bool, waiting: seq<Event>, mutationId: Id, ciphertext: string, after: seq<Event>)
    requires IsEditRun(before, edit, valid, waiting, after)
    ensures var began := Run(INIT, before);
            var t, c := began.next, CaptureOf(began.vault);
            var m := SealedMutation(before, edit, valid, waiting, mutationId, ciphertext);
            var sealed := Step(Run(BeganEdit(before, edit, valid), waiting), Settle(t, Sealed(mutationId, ciphertext)));
            var end := Run(sealed, after);
            && m.mutationId == mutationId && m.ciphertext == ciphertext
            && m.itemId == edit.itemId && m.vaultId == c.bundle.vaultId && m.deleted == edit.Delete?
            && EnqueuedBy(began.enqueued, t) == []
            && Carried(end, t, c, edit, m)
            && (t !in end.tasks ==> EnqueuedBy(end.enqueued, t) == [m])
  {
    var began := Run(INIT, before);
    var t, c := began.next, CaptureOf(began.vault);
    var m := SealedMutation(before, edit, valid, waiting, mutationId, ciphertext);
    var started := BeganEdit(before, edit, valid);
    RunOnlyNumbersUp(INIT, before);
    LaterTasksEnqueuedNothing(INIT, before, t);
    AcceptedAwaitsSeal(began, edit, valid);
    hide Run, Step, EnqueuedBy;
    RunKeepsAwaitsSeal(started, waiting, t, c, edit);
    SealIsCarried(Run(started, waiting), t, c, edit, mutationId, ciphertext);
    RunKeepsCarried(Step(Run(started, waiting), Settle(t, Sealed(mutationId, ciphertext))), after, t, c, edit, m);
  }

  // The revision an edit is based on.

  /** The revision cached for an item; 0 stands for none, as it does at the seal. */
  function Revision(v: Vault, id: Id): int {
    if id in v.revisions then v.revisions[id] else 0
  }

  /** The last revision the record loop stores for the item before its next `await`. */
  function VisitedRevision(records: seq<ItemRecord>, id: Id): Option<int>
    decreases |records|
  {
    if records == [] then None
    else
      var later := if records[0].deleted then VisitedRevision(records[1..], id) else None;
      if later.Some? then later else if records[0].itemId == id then Some(records[0].revision) else None
  }

  /** What a load stores for the item when it goes on, under a current capture. */
  function TaskRewrites(v: Vault, task: Task, answer: Answer, id: Id): Option<int> {
    match task
    case ListingItems(c) => if v.IsCurrent(c.generation) && answer.Items? then VisitedRevision(answer.records, id) else None
    case OpeningRecord(c, records) =>
      if v.IsCurrent(c.generation) && records != [] && (answer.Plaintext? || answer.Failed?) then VisitedRevision(records[1..], id)
      else None
    case _ => None
  }

  /** The value an event writes to the item's entry: a completed lock clears it, and a load stores
      what it lists. */
  function Rewrites(s: State, event: Event, id: Id): Option<int> {
    if CompletesLock(s, event) then Some(0)
    else if event.Start? || event.task !in s.tasks || event.task == s.next then None
    else TaskRewrites(s.vault, s.tasks[event.task], event.answer, id)
  }

  /** The last of them over a run. */
  function LastRewrite(s: State, events: seq<Event>, id: Id): Option<int>
    decreases |events|
  {
    if events == [] then None
    else
      var later := LastRewrite(Step(s, events[0]), events[1..], id);
      if later.Some? then later else Rewrites(s, events[0], id)
  }

  function Rewritten(was: int, last: Option<int>): int { if last.Some? then last.value else was }

  lemma {:induction false} LoadRecordsRewrites(v: Vault, c: Capture, records: seq<ItemRecord>, id: Id)
    ensures Revision(LoadRecords(v, c, records).vault, id)
         == if v.IsCurrent(c.generation) then Rewritten(Revision(v, id), VisitedRevision(records, id)) else Revision(v, id)
    decreases |records|
  {
    if v.IsCurrent(c.generation) && records != [] && records[0].deleted {
      var seen := v.(revisions := v.revisions[records[0].itemId := records[0].revision]);
      LoadRecordsRewrites(seen.(deletedLocally := v.deletedLocally + {records[0].itemId}), c, records[1..], id);
    }
  }

  lemma {:induction false} LoadQueueKeepsRevisions(v: Vault, c: Capture, entries: seq<QueuedMutation>)
    ensures LoadQueue(v, c, entries).vault.revisions == v.revisions
    decreases |entries|
  {
    if v.IsCurrent(c.generation) && entries != [] {
      var m := entries[0].mutation;
      if entries[0].state.Conflicted? || m.vaultId != c.bundle.vaultId {
        LoadQueueKeepsRevisions(v, c, entries[1..]);
      } else if m.deleted {
        LoadQueueKeepsRevisions(v.(deletedLocally := v.deletedLocally + {m.itemId}), c, entries[1..]);
      }
    }
  }

  lemma AdvanceRewrites(v: Vault, task: Task, answer: Answer, id: Id)
    requires !task.Locking?
    ensures Revision(Advance(v, task, answer).vault, id) == Rewritten(Revision(v, id), TaskRewrites(v, task, answer, id))
  {
    match task {
      case ListingItems(c) => if answer.Items? { LoadRecordsRewrites(v, c, answer.records, id); }
      case OpeningRecord(c, records) =>
        if records != [] {
          LoadRecordsRewrites(v, c, records[1..], id);
          if answer.Plaintext? {
            LoadRecordsRewrites(CacheItem(v, c, records[0].itemId, answer.data), c, records[1..], id);
          }
        }
      case ListingQueue(c) => if answer.Queue? { LoadQueueKeepsRevisions(v, c, answer.entries); }
      case OpeningQueued(c, entries) =>
        if entries != [] {
          LoadQueueKeepsRevisions(v, c, entries[1..]);
          if answer.Plaintext? {
            var itemId := entries[0].mutation.itemId;
            LoadQueueKeepsRevisions(CacheItem(v, c, itemId, answer.data).(deletedLocally := v.deletedLocally - {itemId}), c, entries[1..]);
          }
        }
      case _ =>
    }
  }

  lemma StepRewrites(s: State, event: Event, id: Id)
    ensures Revision(Step(s, event).vault, id) == Rewritten(Revision(s.vault, id), Rewrites(s, event, id))
  {
    if event.Settle? && event.task in s.tasks && event.task != s.next && !s.tasks[event.task].Locking? {
      AdvanceRewrites(s.vault, s.tasks[event.task], event.answer, id);
    }
  }

  lemma {:induction false} RunRewrites(s: State, events: seq<Event>, id: Id)
    ensures Revision(Run(s, events).vault, id) == Rewritten(Revision(s.vault, id), LastRewrite(s, events, id))
    decreases |events|
  {
    if events != [] {
      StepRewrites(s, events[0], id);
      RunRewrites(Step(s, events[0]), events[1..], id);
    }
  }

  /** A save or delete is based on the revision cached when it began if and only if nothing rewrote
      the item's entry before the seal was answered, or the last that did wrote that revision again. */
  lemma BasedOnItsBeginningIff(
    before: seq<Event>, edit: Edit, valid: bool, waiting: seq<Event>, mutationId: Id, ciphertext: string, after: seq<Event>)
    requires IsEditRun(before, edit, valid, waiting, after) && !edit.Resolve?
    ensures var began := Run(INIT, before);
            var m := SealedMutation(before, edit, valid, waiting, mutationId, ciphertext);
            var last := LastRewrite(BeganEdit(before, edit, valid), waiting, edit.itemId);
            && m.baseRevision == Rewritten(Revision(began.vault, edit.itemId), last)
            && (m.baseRevision == Revision(began.vault, edit.itemId)
                <==> last.None? || last.value == Revision(began.vault, edit.itemId))
  {
    RunRewrites(BeganEdit(before, edit, valid), waiting, edit.itemId);
  }

  lemma {:induction false} RunThen(s: State, events: seq<Event>, event: Event)
    ensures Run(s, events + [event]) == Step(Run(s, events), event)
    decreases |events|
  {
    if events == [] {
      assert events + [event] == [event] && [event][1..] == [];
    } else {
      assert (events + [event])[1..] == events[1..] + [event];
      RunThen(Step(s, events[0]), events[1..], event);
    }
  }

  /** An unlock whose load lists one record. */
  function Opening(target: Bundle, session: nat, record: ItemRecord): seq<Event> {
    [Start(Unlock(target)), Settle(0, Handle(session)), Settle(0, Items([record]))]
  }

  /** A save under way while a refresh lists a newer record of its item. */
  function SaveOverRefresh(
    target: Bundle, session: nat, listed: ItemRecord, newer: ItemRecord, data: Data, mutationId: Id, ciphertext: string): seq<Event>
  {
    Opening(target, session, listed) + [Start(Change(Save(listed.itemId, data), true))] + [Start(Refresh)]
    + [Settle(2, Items([newer]))] + [Settle(1, Sealed(mutationId, ciphertext))] + [Settle(1, Done)]
  }

  lemma OpeningRun(target: Bundle, session: nat, record: ItemRecord)
    requires !record.deleted
    ensures var c := Capture(1, session, target);
            Run(INIT, Opening(target, session, record))
            == State(Vault(Some(session), Some(target), 1, map[], map[record.itemId := record.revision], {}),
                     map[0 := OpeningRecord(c, [record])], 1, [], {(record.itemId, record.revision)}, {})
  {
    var e := Opening(target, session, record);
    RunThen(INIT, [], e[0]);
    RunThen(INIT, [e[0]], e[1]);
    RunThen(INIT, [e[0], e[1]], e[2]);
    assert [] + [e[0]] == [e[0]] && [e[0]] + [e[1]] == [e[0], e[1]] && [e[0], e[1]] + [e[2]] == e;
    var s2 := Step(Step(INIT, e[0]), e[1]);
    assert s2.tasks == map[0 := ListingItems(Capture(1, session, target))];
    var heard := Hears(s2, Told(e[2].answer), Texts(s2.tasks[0], e[2].answer));
    assert Told(e[2].answer) == {(record.itemId, record.revision)} by { assert [record][0] == record; }
  }

  // Single steps of the runs below.

  lemma EditBegins(s: State, edit: Edit)
    requires s.vault.Unlocked() && (edit.Delete? ==> edit.itemId in s.vault.items)
    ensures var w := Step(s, Start(Change(edit, true)));
            && w.vault == s.vault && w.next == s.next + 1 && w.enqueued == s.enqueued
            && w.tasks == s.tasks[s.next := Sealing(CaptureOf(s.vault), edit)]
  {
  }

  /** The steps of a save or delete after the first: sealed, stored, ended. */
  lemma EditGoesOn(s: State, t: nat, c: Capture, edit: Edit, mutationId: Id, ciphertext: string)
    requires t < s.next && t in s.tasks && !edit.Resolve?
    ensures s.tasks[t] == Sealing(c, edit) ==>
              var w := Step(s, Settle(t, Sealed(mutationId, ciphertext)));
              && w.vault == s.vault && w.next == s.next && w.enqueued == s.enqueued
              && w.tasks == s.tasks[t := Storing(c, edit, EditMutation(s.vault, c, edit, mutationId, ciphertext))]
    ensures forall m :: s.tasks[t] == Storing(c, edit, m) ==>
              var w := Step(s, Settle(t, Done));
              && w.vault == s.vault && w.next == s.next && w.enqueued == s.enqueued + [Enqueued(t, m)]
              && w.tasks == s.tasks[t := Stored(c, edit, m)]
    ensures forall m :: s.tasks[t] == Stored(c, edit, m) ==> Step(s, Settle(t, Done)).vault == FinishEdit(s.vault, c, edit)
  {
  }

  /** A refresh that lists one record. */
  lemma RefreshLists(s: State, record: ItemRecord)
    requires s.vault.Unlocked() && !record.deleted
    ensures var w := Step(Step(s, Start(Refresh)), Settle(s.next, Items([record])));
            && w.vault == s.vault.(revisions := s.vault.revisions[record.itemId := record.revision])
            && w.next == s.next + 1 && w.enqueued == s.enqueued
            && (forall t | t in s.tasks && t != s.next :: t in w.tasks && w.tasks[t] == s.tasks[t])
  {
    var v := s.vault;
    var c := CaptureOf(v);
    var mid := Step(s, Start(Refresh));
    assert mid.tasks[s.next] == ListingItems(c) && mid.vault == v;
    assert LoadRecords(v, c, [record])
        == Continue(v.(revisions := v.revisions[record.itemId := record.revision]), OpeningRecord(c, [record]));
  }

  lemma SaveOverRefreshRun(
    target: Bundle, session: nat, listed: ItemRecord, newer: ItemRecord, data: Data, mutationId: Id, ciphertext: string)
    requires listed.itemId == newer.itemId && !listed.deleted && !newer.deleted
    ensures Run(INIT, SaveOverRefresh(target, session, listed, newer, data, mutationId, ciphertext)).enqueued
            == [Enqueued(1, Mutation(mutationId, listed.itemId, target.vaultId, newer.revision, ciphertext, ENVELOPE_VERSION, false))]
  {
    OpeningRun(target, session, listed);
    var s3 := Run(INIT, Opening(target, session, listed));
    var edit, c := Save(listed.itemId, data), Capture(1, session, target);
    FiveThen(INIT, Opening(target, session, listed), Start(Change(edit, true)), Start(Refresh), Settle(2, Items([newer])),
             Settle(1, Sealed(mutationId, ciphertext)), Settle(1, Done));
    hide Run, Step, Opening;
    var s4 := Step(s3, Start(Change(edit, true)));
    var s6 := Step(Step(s4, Start(Refresh)), Settle(2, Items([newer])));
    EditBegins(s3, edit);
    RefreshLists(s4, newer);
    EditGoesOn(s6, 1, c, edit, mutationId, ciphertext);
    EditGoesOn(Step(s6, Settle(1, Sealed(mutationId, ciphertext))), 1, c, edit, mutationId, ciphertext);
  }

  lemma FiveThen(s: State, events: seq<Event>, e1: Event, e2: Event, e3: Event, e4: Event, e5: Event)
    ensures Run(s, events + [e1] + [e2] + [e3] + [e4] + [e5]) == Step(Step(Step(Step(Step(Run(s, events), e1), e2), e3), e4), e5)
  {
    hide Step, Run;
    RunThen(s, events, e1);
    RunThen(s, events + [e1], e2);
    RunThen(s, events + [e1] + [e2], e3);
    RunThen(s, events + [e1] + [e2] + [e3], e4);
    RunThen(s, events + [e1] + [e2] + [e3] + [e4], e5);
  }

  /** So the server applies over the newer revision an edit that was made on the older one: no conflict tells. */
  lemma RefreshDuringSaveLosesAnUpdate(
    target: Bundle, session: nat, listed: ItemRecord, newer: ItemRecord, data: Data, mutationId: Id, ciphertext: string,
    tables: Tables, account: Id, now: Time)
    requires listed.itemId == newer.itemId && !listed.deleted && !newer.deleted && listed.revision < newer.revision
    ensures Revision(Run(INIT, Opening(target, session, listed)).vault, listed.itemId) == listed.revision
    ensures var enqueued := Run(INIT, SaveOverRefresh(target, session, listed, newer, data, mutationId, ciphertext)).enqueued;
            && |enqueued| == 1 && enqueued[0].mutation.ciphertext == ciphertext
            && (MayWrite(tables, account, target.vaultId) && RequestId(account, mutationId) !in tables.outcomes
                && tables.CurrentRevision(Key(target.vaultId, newer.itemId)) == newer.revision
                ==> var reply := ApplyMutation(tables, account, enqueued[0].mutation, now).1;
                    reply.Created? && reply.item.revision == newer.revision + 1)
  {
    OpeningRun(target, session, listed);
    SaveOverRefreshRun(target, session, listed, newer, data, mutationId, ciphertext);
  }

  /** A save or delete sealed while the vault is locked carries base revision 0, so the
      server never applies it over a stored item: it records a conflict. */
  lemma SealedWhileLockedConflicts(
    events: seq<Event>, t: nat, mutationId: Id, ciphertext: string, tables: Tables, account: Id, now: Time)
    requires var s := Run(INIT, events);
             s.vault.session.None? && t in s.tasks && s.tasks[t].Sealing? && !s.tasks[t].edit.Resolve?
    ensures var s := Step(Run(INIT, events), Settle(t, Sealed(mutationId, ciphertext)));
            && t in s.tasks && s.tasks[t].Storing?
            && var m := s.tasks[t].mutation;
               && m.baseRevision == 0
               && (RequestId(account, mutationId) !in tables.outcomes && MayWrite(tables, account, m.vaultId)
                   && m.At() in tables.items && tables.items[m.At()].record.revision != 0
                   ==> var (written, reply) := ApplyMutation(tables, account, m, now);
                       written.items == tables.items && reply == Conflict(mutationId, tables.items[m.At()].record, m))
  {
    RunKeepsInv(INIT, events);
  }

  // What the caches and the queue hold.

  /** Over every run each cached revision is one the object was told for that item, each cached
      text one that was opened or entered for it, and each mutation enqueued is based on a
      revision told for its item, or on none. */
  lemma CachesHoldWhatWasTold(events: seq<Event>)
    ensures var s := Run(INIT, events);
            && (forall id | id in s.vault.revisions :: (id, s.vault.revisions[id]) in s.told)
            && (forall id | id in s.vault.items :: (id, s.vault.items[id].data) in s.texts)
            && (forall j | 0 <= j < |s.enqueued| ::
                  var m := s.enqueued[j].mutation; m.baseRevision == 0 || (m.itemId, m.baseRevision) in s.told)
  {
    RunIsSourced(INIT, events);
  }

  // Which generation cached what.

  /** Every cached item was written under the current generation. */
  ghost predicate Isolated(v: Vault) {
    forall id | id in v.items :: v.items[id].generation == v.generation
  }

  /** Starting an unlock isolates the new generation if and only if nothing was cached. */
  lemma UnlockIsolatesIffEmpty(s: State, target: Bundle)
    requires Inv(s)
    ensures Isolated(Step(s, Start(Unlock(target))).vault) <==> s.vault.items == map[]
  {
    if s.vault.items != map[] {
      var id :| id in s.vault.items;
      assert s.vault.items[id].generation <= s.vault.generation;
    }
  }

  lemma AdvanceIsolates(v: Vault, task: Task, answer: Answer)
    requires Isolated(v)
    ensures Isolated(Advance(v, task, answer).vault)
  {
    if task.ListingItems? || task.OpeningRecord? || task.ListingQueue? || task.OpeningQueued? {
      LoadStepKeeps(v, task, answer);
    }
  }

  /** The discipline that every unlock starts on an empty cache, as it does on a locked vault. */
  predicate UnlocksWhenEmpty(s: State, events: seq<Event>)
    decreases |events|
  {
    events != [] ==>
      (events[0].Start? && events[0].call.Unlock? ==> s.vault.items == map[]) && UnlocksWhenEmpty(Step(s, events[0]), events[1..])
  }

  ghost predicate IsolatedThroughout(s: State, events: seq<Event>)
    decreases |events|
  {
    Isolated(s.vault) && (events != [] ==> IsolatedThroughout(Step(s, events[0]), events[1..]))
  }

  lemma {:induction false} IsolatedThroughoutIff(s: State, events: seq<Event>)
    requires Inv(s) && Isolated(s.vault)
    ensures IsolatedThroughout(s, events) <==> UnlocksWhenEmpty(s, events)
    decreases |events|
  {
    if events != [] {
      var next := Step(s, events[0]);
      StepKeepsInv(s, events[0]);
      if events[0].Start? && events[0].call.Unlock? {
        UnlockIsolatesIffEmpty(s, events[0].call.target);
      } else if events[0].Settle? && events[0].task in s.tasks {
        AdvanceIsolates(s.vault, s.tasks[events[0].task], events[0].answer);
      }
      if Isolated(next.vault) {
        IsolatedThroughoutIff(next, events[1..]);
      }
    }
  }

  /** Throughout a run no item decrypted in one generation is held in another if and only if
      every unlock of the run starts on an empty cache. */
  lemma RunsAreIsolatedIff(events: seq<Event>)
    ensures IsolatedThroughout(INIT, events) <==> UnlocksWhenEmpty(INIT, events)
  {
    IsolatedThroughoutIff(INIT, events);
  }

  /** An unlock of a vault that is open with a cached item. */
  function UnlockOverOpen(target: Bundle, session: nat, record: ItemRecord, data: Data): seq<Event> {
    Opening(target, session, record) + [Settle(0, Plaintext(data))] + [Start(Unlock(target))]
  }

  /** It leaves the item of generation 1 cached in generation 2. */
  lemma SecondUnlockMixesGenerations(target: Bundle, session: nat, record: ItemRecord, data: Data)
    requires !record.deleted
    ensures var v := Run(INIT, UnlockOverOpen(target, session, record, data)).vault;
            && v.session == Some(session) && v.generation == 2
            && v.items == map[record.itemId := Cached(data, 1)]
            && !Isolated(v)
  {
    OpeningRun(target, session, record);
    var o, c := Opening(target, session, record), Capture(1, session, target);
    RunThen(INIT, o, Settle(0, Plaintext(data)));
    RunThen(INIT, o + [Settle(0, Plaintext(data))], Start(Unlock(target)));
    LoadOpens(Run(INIT, o), c, record, data);
    var v := Run(INIT, UnlockOverOpen(target, session, record, data)).vault;
    assert record.itemId in v.items;
  }

  // What a lock does not do.

  /** A lock that completes while an unlock awaits the worker does not win: the answer opens the vault. */
  lemma PendingUnlockOpensAfterLock(before: seq<Event>, t: nat, lock: Event, session: nat)
    requires var s := Run(INIT, before); t in s.tasks && s.tasks[t].Unlocking? && CompletesLock(s, lock)
    ensures var s := Run(INIT, before);
            && Step(s, lock).vault.session.None?
            && Step(Step(s, lock), Settle(t, Handle(session))).vault.session == Some(session)
  {
    RunKeepsInv(INIT, before);
    assert t in Step(Run(INIT, before), lock).tasks;
  }

  /** What an event makes of an item's mark: a completed lock clears it, the end of a delete sets
      it, the end of an undo clears it. */
  function Marks(s: State, event: Event, id: Id): Option<bool> {
    if CompletesLock(s, event) then Some(false)
    else if event.Start? || event.task !in s.tasks || event.task == s.next || !event.answer.Done? then None
    else
      match s.tasks[event.task]
      case Stored(_, edit, _) => if edit.Delete? && edit.itemId == id then Some(true) else None
      case Undoing(itemId) => if itemId == id then Some(false) else None
      case _ => None
  }

  /** While the vault stays locked the marks change exactly when a delete of an unmarked item ends, an
      undo of a marked one does, or a further lock completes and some item is marked. */
  lemma MarksWhileLocked(s: State, event: Event)
    requires s.vault.session.None? && Step(s, event).vault.session.None?
    ensures Step(s, event).vault.deletedLocally != s.vault.deletedLocally
       <==> || (CompletesLock(s, event) && s.vault.deletedLocally != {})
            || (event.Settle? && event.task in s.tasks && event.task != s.next && event.answer.Done?
                && var task := s.tasks[event.task];
                   || (task.Stored? && task.edit.Delete? && task.edit.itemId !in s.vault.deletedLocally)
                   || (task.Undoing? && task.itemId in s.vault.deletedLocally))
    ensures forall id :: id in Step(s, event).vault.deletedLocally <==>
              if Marks(s, event, id).Some? then Marks(s, event, id).value else id in s.vault.deletedLocally
  {
    if event.Settle? && event.task in s.tasks {
      var task := s.tasks[event.task];
      if task.ListingItems? || task.OpeningRecord? || task.ListingQueue? || task.OpeningQueued? {
        LoadStepKeeps(s.vault, task, event.answer);
      }
    }
  }

  predicate StaysLocked(s: State, events: seq<Event>)
    decreases |events|
  {
    s.vault.session.None? && (events != [] ==> StaysLocked(Step(s, events[0]), events[1..]))
  }

  /** The last of those events over a run. */
  function LastMark(s: State, events: seq<Event>, id: Id): Option<bool>
    decreases |events|
  {
    if events == [] then None
    else
      var later := LastMark(Step(s, events[0]), events[1..], id);
      if later.Some? then later else Marks(s, events[0], id)
  }

  /** Over every run that leaves the vault locked an item is marked at the end if and only if a
      delete of it was the last of them, or it was marked and there was none. */
  lemma {:induction false} MarkedWhileLockedIff(s: State, events: seq<Event>, id: Id)
    requires StaysLocked(s, events)
    ensures id in Run(s, events).vault.deletedLocally <==>
            if LastMark(s, events, id).Some? then LastMark(s, events, id).value else id in s.vault.deletedLocally
    decreases |events|
  {
    if events != [] {
      MarksWhileLocked(s, events[0]);
      MarkedWhileLockedIff(Step(s, events[0]), events[1..], id);
    }
  }

  /** A delete that is under way when the vault locks. */
  function DeleteOverLock(
    target: Bundle, session: nat, record: ItemRecord, data: Data, mutationId: Id, ciphertext: string): seq<Event>
  {
    Opening(target, session, record) + [Settle(0, Plaintext(data))] + [Start(Change(Delete(record.itemId), true))]
    + [Settle(1, Sealed(mutationId, ciphertext))] + [Settle(1, Done)] + [Start(Lock)] + [Settle(2, Done)] + [Settle(1, Done)]
  }

  /** It marks its item afterwards: a run to a locked vault with a mark. */
  lemma DeleteMarksAfterLock(target: Bundle, session: nat, record: ItemRecord, data: Data, mutationId: Id, ciphertext: string)
    requires !record.deleted
    ensures var v := Run(INIT, DeleteOverLock(target, session, record, data, mutationId, ciphertext)).vault;
            v.session.None? && v.NothingCached() && v.deletedLocally == {record.itemId}
  {
    OpeningRun(target, session, record);
    var o := Opening(target, session, record);
    var edit, c := Delete(record.itemId), Capture(1, session, target);
    var open, begin, seal := Settle(0, Plaintext(data)), Start(Change(edit, true)), Settle(1, Sealed(mutationId, ciphertext));
    var s3 := Run(INIT, o);
    FiveThen(INIT, o, open, begin, seal, Settle(1, Done), Start(Lock));
    RunThen(INIT, o + [open] + [begin] + [seal] + [Settle(1, Done)] + [Start(Lock)], Settle(2, Done));
    RunThen(INIT, o + [open] + [begin] + [seal] + [Settle(1, Done)] + [Start(Lock)] + [Settle(2, Done)], Settle(1, Done));
    hide Run, Step, Opening;
    var s4 := Step(s3, open);
    var s5 := Step(s4, begin);
    var s6 := Step(s5, seal);
    var s7 := Step(s6, Settle(1, Done));
    LoadOpens(s3, c, record, data);
    EditBegins(s4, edit);
    EditGoesOn(s5, 1, c, edit, mutationId, ciphertext);
    EditGoesOn(s6, 1, c, edit, mutationId, ciphertext);
    LockRuns(s7);
    EditGoesOn(Step(Step(s7, Start(Lock)), Settle(2, Done)), 1, c, edit, mutationId, ciphertext);
  }

  /** A load opens its only record. */
  lemma LoadOpens(s: State, c: Capture, record: ItemRecord, data: Data)
    requires s.tasks == map[0 := OpeningRecord(c, [record])] && s.next == 1 && s.vault.IsCurrent(c.generation)
    ensures var w := Step(s, Settle(0, Plaintext(data)));
            && w.vault == CacheItem(s.vault, c, record.itemId, data) && w.next == 1 && w.enqueued == s.enqueued
            && w.tasks == map[0 := ListingQueue(c)]
  {
    assert [record][1..] == [];
  }

  /** A lock of an unlocked vault, run to its end. */
  lemma LockRuns(s: State)
    requires s.vault.session.Some?
    ensures var w := Step(Step(s, Start(Lock)), Settle(s.next, Done));
            && w.vault == FinishLock(s.vault) && w.next == s.next + 1
            && (forall t | t in s.tasks && t != s.next :: t in w.tasks && w.tasks[t] == s.tasks[t])
  {
  }
}
