/**
 The web client's `VaultSession` (`apps/web/src/vault/vault-session.ts`). Every
 `await` ends a segment, and a task is what an asynchronous method still has to
 do after one. The segments are functions on the object's fields here; the class
 `VaultSession` below runs them in place.
 */
module WebVault {
  import opened Wrappers
  import opened SyncModel
  import SyncWorld

  type QueuedMutation = SyncWorld.QueuedMutation

  type Data = string

  const ENVELOPE_VERSION: string := "crypto-envelope/v1"

  datatype Bundle = Bundle(accountId: Id, vaultId: Id)

  /** A decrypted item, annotated with the generation its writer had captured. */
  datatype Cached = Cached(data: Data, generation: nat)

  /** The fields of the object. */
  datatype Vault = Vault(
    session: Option<nat>, bundle: Option<Bundle>, generation: nat,
    items: map<Id, Cached>, revisions: map<Id, int>, deletedLocally: set<Id>)
  {
    predicate IsCurrent(captured: nat) {
      captured == generation && session.Some?
    }

    predicate Unlocked() { session.Some? && bundle.Some? }

    predicate NothingCached() { items == map[] && revisions == map[] }
  }

  /** What a method reads before its first `await`. */
  datatype Capture = Capture(generation: nat, session: nat, bundle: Bundle)

  datatype Edit =
    | Save(itemId: Id, data: Data)
    | Delete(itemId: Id)
    | Resolve(itemId: Id, data: Data, currentRevision: int, conflict: Id)

  datatype Task =
    | Unlocking(target: Bundle)
    | Locking
    | ListingItems(capture: Capture)
    | OpeningRecord(capture: Capture, records: seq<ItemRecord>)
    | ListingQueue(capture: Capture)
    | OpeningQueued(capture: Capture, entries: seq<QueuedMutation>)
    | Sealing(capture: Capture, edit: Edit)
    | Dequeuing(capture: Capture, edit: Edit, mutation: Mutation)
    | Storing(capture: Capture, edit: Edit, mutation: Mutation)
    | Stored(capture: Capture, edit: Edit, mutation: Mutation)
    | Undoing(itemId: Id)
  {
    predicate Captured() { !Unlocking? && !Locking? && !Undoing? }
  }

  /** What an awaited promise settles with. */
  datatype Answer =
    | Failed
    | Done
    | Handle(session: nat)
    | Items(records: seq<ItemRecord>)
    | Plaintext(data: Data)
    | Queue(entries: seq<QueuedMutation>)
    | Sealed(mutationId: Id, ciphertext: string)

  /** The fields after a segment, the rest of the method if any, and what it enqueued. */
  datatype Outcome = Outcome(vault: Vault, next: Option<Task>, enqueued: Option<Mutation>)

  function Continue(v: Vault, next: Task): Outcome { Outcome(v, Some(next), None) }

  function Return(v: Vault): Outcome { Outcome(v, None, None) }

  // Segments.

  function BeginUnlock(v: Vault, target: Bundle): Outcome {
    Continue(v.(generation := v.generation + 1), Unlocking(target))
  }

  /** `loadAllItemsIntoMemory` up to its first `await`. */
  function BeginLoad(v: Vault): Outcome {
    if v.Unlocked() then Continue(v, ListingItems(Capture(v.generation, v.session.value, v.bundle.value))) else Return(v)
  }

  /** The `finally` block of `lock`. */
  function FinishLock(v: Vault): Vault {
    Vault(None, None, v.generation + 1, map[], map[], {})
  }

  function BeginLock(v: Vault): Outcome {
    if v.session.Some? then Continue(v, Locking) else Return(FinishLock(v))
  }

  /** The loop over the records, up to the next record that must be opened. */
  function LoadRecords(v: Vault, c: Capture, records: seq<ItemRecord>): Outcome
    decreases |records|
  {
    if !v.IsCurrent(c.generation) then Return(v)
    else if records == [] then Continue(v, ListingQueue(c))
    else
      var id := records[0].itemId;
      var seen := v.(revisions := v.revisions[id := records[0].revision]);
      if records[0].deleted then LoadRecords(seen.(deletedLocally := v.deletedLocally + {id}), c, records[1..])
      else Continue(seen, OpeningRecord(c, records))
  }

  function CacheItem(v: Vault, c: Capture, id: Id, data: Data): Vault {
    v.(items := v.items[id := Cached(data, c.generation)])
  }

  /** A failure to open or parse is caught, and the loop goes on. */
  function RecordOpened(v: Vault, c: Capture, records: seq<ItemRecord>, data: Option<Data>): Outcome {
    if records == [] then Return(v)
    else if data.None? then LoadRecords(v, c, records[1..])
    else if !v.IsCurrent(c.generation) then Return(v)
    else LoadRecords(CacheItem(v, c, records[0].itemId, data.value), c, records[1..])
  }

  /** The overlay loop over the queue, up to the next entry that must be opened. */
  function LoadQueue(v: Vault, c: Capture, entries: seq<QueuedMutation>): Outcome
    decreases |entries|
  {
    if !v.IsCurrent(c.generation) || entries == [] then Return(v)
    else
      var m := entries[0].mutation;
      if entries[0].state.Conflicted? || m.vaultId != c.bundle.vaultId then LoadQueue(v, c, entries[1..])
      else if m.deleted then LoadQueue(v.(deletedLocally := v.deletedLocally + {m.itemId}), c, entries[1..])
      else Continue(v, OpeningQueued(c, entries))
  }

  function QueuedOpened(v: Vault, c: Capture, entries: seq<QueuedMutation>, data: Option<Data>): Outcome {
    if entries == [] then Return(v)
    else if data.None? then LoadQueue(v, c, entries[1..])
    else if !v.IsCurrent(c.generation) then Return(v)
    else
      var id := entries[0].mutation.itemId;
      var cached := CacheItem(v, c, id, data.value);
      LoadQueue(cached.(deletedLocally := v.deletedLocally - {id}), c, entries[1..])
  }

  /** `saveItem`, `deleteItem` and `resolveConflict` up to their first `await`; they throw
      on a locked vault, invalid data or an unknown item. */
  function BeginEdit(v: Vault, edit: Edit, valid: bool): Outcome {
    if !v.Unlocked() || (!edit.Delete? && !valid) || (edit.Delete? && edit.itemId !in v.items) then Return(v)
    else Continue(v, Sealing(Capture(v.generation, v.session.value, v.bundle.value), edit))
  }

  function EditMutation(v: Vault, c: Capture, edit: Edit, mutationId: Id, ciphertext: string): Mutation {
    var base := if edit.Resolve? then edit.currentRevision else if edit.itemId in v.revisions then v.revisions[edit.itemId] else 0;
    Mutation(mutationId, edit.itemId, c.bundle.vaultId, base, ciphertext, ENVELOPE_VERSION, edit.Delete?)
  }

  function EditSealed(v: Vault, c: Capture, edit: Edit, mutationId: Id, ciphertext: string): Outcome {
    var m := EditMutation(v, c, edit, mutationId, ciphertext);
    Continue(v, if edit.Resolve? then Dequeuing(c, edit, m) else Storing(c, edit, m))
  }

  /** After `enqueueEdit` resolved: a delete marks the item whatever the generation. */
  function FinishEdit(v: Vault, c: Capture, edit: Edit): Vault {
    if edit.Delete? then v.(deletedLocally := v.deletedLocally + {edit.itemId})
    else if v.IsCurrent(c.generation) then
      CacheItem(v, c, edit.itemId, edit.data).(deletedLocally := v.deletedLocally - {edit.itemId})
    else v
  }

  /** A task receives the answer it awaits; any other answer is not for it. */
  function Advance(v: Vault, task: Task, answer: Answer): Outcome {
    match task
    case Unlocking(target) =>
      (match answer
       case Handle(session) => BeginLoad(v.(session := Some(session), bundle := Some(target)))
       case Failed => Return(v)
       case _ => Continue(v, task))
    case Locking =>
      if answer.Done? || answer.Failed? then Return(FinishLock(v)) else Continue(v, task)
    case ListingItems(c) =>
      (match answer
       case Items(records) => LoadRecords(v, c, records)
       case Failed => Return(v)
       case _ => Continue(v, task))
    case OpeningRecord(c, records) =>
      (match answer
       case Plaintext(data) => RecordOpened(v, c, records, Some(data))
       case Failed => RecordOpened(v, c, records, None)
       case _ => Continue(v, task))
    case ListingQueue(c) =>
      (match answer
       case Queue(entries) => LoadQueue(v, c, entries)
       case Failed => Return(v)
       case _ => Continue(v, task))
    case OpeningQueued(c, entries) =>
      (match answer
       case Plaintext(data) => QueuedOpened(v, c, entries, Some(data))
       case Failed => QueuedOpened(v, c, entries, None)
       case _ => Continue(v, task))
    case Sealing(c, edit) =>
      (match answer
       case Sealed(mutationId, ciphertext) => EditSealed(v, c, edit, mutationId, ciphertext)
       case Failed => Return(v)
       case _ => Continue(v, task))
    case Dequeuing(c, edit, m) =>
      if answer.Done? then Continue(v, Storing(c, edit, m)) else if answer.Failed? then Return(v) else Continue(v, task)
    case Storing(c, edit, m) =>
      if answer.Done? then Outcome(v, Some(Stored(c, edit, m)), Some(m)) else if answer.Failed? then Return(v) else Continue(v, task)
    case Stored(c, edit, m) => if answer.Done? then Return(FinishEdit(v, c, edit)) else Continue(v, task)
    case Undoing(id) =>
      if answer.Done? then Return(v.(deletedLocally := v.deletedLocally - {id})) else if answer.Failed? then Return(v) else Continue(v, task)
  }

  // Runs: any interleaving of calls and answers.

  datatype Call = Unlock(target: Bundle) | Lock | Refresh | Change(edit: Edit, valid: bool) | Undo(itemId: Id)

  datatype Event = Start(call: Call) | Settle(task: nat, answer: Answer)

  /** A mutation in the queue, with the task that enqueued it. */
  datatype Enqueued = Enqueued(task: nat, mutation: Mutation)

  /** The object, its unfinished tasks and the next task's number; then history: every
      mutation enqueued so far, every revision of an item the object was told by the repository or
      a conflict, and every text of an item the worker opened or the user entered. */
  datatype State = State(
    vault: Vault, tasks: map<nat, Task>, next: nat,
    enqueued: seq<Enqueued>, told: set<(Id, int)>, texts: set<(Id, Data)>)

  const INIT := State(Vault(None, None, 0, map[], map[], {}), map[], 0, [], {}, {})

  function Begin(v: Vault, call: Call): Outcome {
    match call
    case Unlock(target) => BeginUnlock(v, target)
    case Lock => BeginLock(v)
    case Refresh => BeginLoad(v)
    case Change(edit, valid) => BeginEdit(v, edit, valid)
    case Undo(itemId) => Continue(v, Undoing(itemId))
  }

  function After(s: State, task: nat, o: Outcome): State {
    State(
      o.vault,
      if o.next.Some? then s.tasks[task := o.next.value] else s.tasks - {task},
      if task == s.next then s.next + 1 else s.next,
      if o.enqueued.Some? then s.enqueued + [Enqueued(task, o.enqueued.value)] else s.enqueued,
      s.told, s.texts)
  }

  /** The revisions and texts that an answer or a call brings. */
  function Told(answer: Answer): set<(Id, int)> {
    if answer.Items? then set r | r in answer.records :: (r.itemId, r.revision) else {}
  }

  function Texts(task: Task, answer: Answer): set<(Id, Data)> {
    if !answer.Plaintext? then {}
    else match task
      case OpeningRecord(_, records) => if records == [] then {} else {(records[0].itemId, answer.data)}
      case OpeningQueued(_, entries) => if entries == [] then {} else {(entries[0].mutation.itemId, answer.data)}
      case _ => {}
  }

  function Hears(s: State, told: set<(Id, int)>, texts: set<(Id, Data)>): State {
    s.(told := s.told + told, texts := s.texts + texts)
  }

  function HearsCall(s: State, call: Call): State {
    if !call.Change? then s
    else match call.edit
      case Save(id, data) => Hears(s, {}, {(id, data)})
      case Delete(_) => s
      case Resolve(id, data, revision, _) => Hears(s, {(id, revision)}, {(id, data)})
  }

  function Step(s: State, event: Event): State {
    match event
    case Start(call) => After(HearsCall(s, call), s.next, Begin(s.vault, call))
    case Settle(task, answer) =>
      if task in s.tasks && task != s.next then
        After(Hears(s, Told(answer), Texts(s.tasks[task], answer)), task, Advance(s.vault, s.tasks[task], answer))
      else s
  }

  function Run(s: State, events: seq<Event>): State
    decreases |events|
  {
    if events == [] then s else Run(Step(s, events[0]), events[1..])
  }
}

/** The object itself: each method is one segment, run in place on the fields. */
module WebVaultSession {
  import opened Wrappers
  import opened SyncModel
  import opened WebVault

  class VaultSession {
    var session: Option<nat>
    var bundle: Option<Bundle>
    var generation: nat
    var itemCache: map<Id, Cached>
    var revisionCache: map<Id, int>
    var deletedLocally: set<Id>

    ghost function View(): Vault
      reads this
    {
      Vault(session, bundle, generation, itemCache, revisionCache, deletedLocally)
    }

    constructor ()
      ensures View() == INIT.vault
    {
      session, bundle, generation := None, None, 0;
      itemCache, revisionCache, deletedLocally := map[], map[], {};
    }

    predicate IsGenerationCurrent(captured: nat)
      reads this
    {
      captured == generation && session.Some?
    }

    method StartUnlock(target: Bundle) returns (next: Task)
      modifies this
      ensures Outcome(View(), Some(next), None) == BeginUnlock(old(View()), target)
    {
      generation := generation + 1;
      next := Unlocking(target);
    }

    method UnlockAnswered(handle: nat, target: Bundle) returns (next: Option<Task>)
      modifies this
      ensures Outcome(View(), next, None) == Advance(old(View()), Unlocking(target), Handle(handle))
    {
      session := Some(handle);
      bundle := Some(target);
      next := LoadAllItems();
    }

    method LoadAllItems() returns (next: Option<Task>)
      ensures Outcome(View(), next, None) == BeginLoad(View())
    {
      if session.None? || bundle.None? {
        return None;
      }
      return Some(ListingItems(Capture(generation, session.value, bundle.value)));
    }

    /** The loop over the listed records, from any point of it. */
    method ContinueRecords(c: Capture, records: seq<ItemRecord>) returns (next: Option<Task>)
      modifies this
      ensures Outcome(View(), next, None) == LoadRecords(old(View()), c, records)
    {
      if !IsGenerationCurrent(c.generation) {
        return None;
      }
      var rest := records;
      while rest != []
        invariant IsGenerationCurrent(c.generation)
        invariant LoadRecords(View(), c, rest) == LoadRecords(old(View()), c, records)
        decreases |rest|
      {
        var record := rest[0];
        revisionCache := revisionCache[record.itemId := record.revision];
        if !record.deleted {
          return Some(OpeningRecord(c, rest));
        }
        deletedLocally := deletedLocally + {record.itemId};
        rest := rest[1..];
      }
      return Some(ListingQueue(c));
    }

    method RecordAnswered(c: Capture, records: seq<ItemRecord>, data: Option<Data>) returns (next: Option<Task>)
      requires records != []
      modifies this
      ensures Outcome(View(), next, None) == RecordOpened(old(View()), c, records, data)
    {
      if data.Some? {
        if !IsGenerationCurrent(c.generation) {
          return None;
        }
        itemCache := itemCache[records[0].itemId := Cached(data.value, c.generation)];
      }
      next := ContinueRecords(c, records[1..]);
    }

    /** The overlay loop over the queued mutations, from any point of it. */
    method ContinueQueue(c: Capture, entries: seq<QueuedMutation>) returns (next: Option<Task>)
      modifies this
      ensures Outcome(View(), next, None) == LoadQueue(old(View()), c, entries)
    {
      if !IsGenerationCurrent(c.generation) {
        return None;
      }
      var rest := entries;
      while rest != []
        invariant IsGenerationCurrent(c.generation)
        invariant LoadQueue(View(), c, rest) == LoadQueue(old(View()), c, entries)
        decreases |rest|
      {
        var m := rest[0].mutation;
        if !rest[0].state.Conflicted? && m.vaultId == c.bundle.vaultId {
          if !m.deleted {
            return Some(OpeningQueued(c, rest));
          }
          deletedLocally := deletedLocally + {m.itemId};
        }
        rest := rest[1..];
      }
      return None;
    }

    method QueuedAnswered(c: Capture, entries: seq<QueuedMutation>, data: Option<Data>) returns (next: Option<Task>)
      requires entries != []
      modifies this
      ensures Outcome(View(), next, None) == QueuedOpened(old(View()), c, entries, data)
    {
      if data.Some? {
        if !IsGenerationCurrent(c.generation) {
          return None;
        }
        var id := entries[0].mutation.itemId;
        itemCache := itemCache[id := Cached(data.value, c.generation)];
        deletedLocally := deletedLocally - {id};
      }
      next := ContinueQueue(c, entries[1..]);
    }

    method StartLock() returns (next: Option<Task>)
      modifies this
      ensures Outcome(View(), next, None) == BeginLock(old(View()))
    {
      if session.Some? {
        return Some(Locking);
      }
      LockAnswered();
      return None;
    }

    /** The `finally` block: it runs whether or not the worker's own lock threw. */
    method LockAnswered()
      modifies this
      ensures View() == FinishLock(old(View()))
    {
      generation := generation + 1;
      session := None;
      bundle := None;
      itemCache := map[];
      revisionCache := map[];
      deletedLocally := {};
    }

    method StartEdit(edit: Edit, valid: bool) returns (next: Option<Task>)
      ensures Outcome(View(), next, None) == BeginEdit(View(), edit, valid)
    {
      if session.None? || bundle.None? {
        return None;
      }
      var capture := Capture(generation, session.value, bundle.value);
      match edit {
        case Delete(itemId) => return if itemId in itemCache then Some(Sealing(capture, edit)) else None;
        case _ => return if valid then Some(Sealing(capture, edit)) else None;
      }
    }

    method SealAnswered(c: Capture, edit: Edit, mutationId: Id, ciphertext: string) returns (next: Task)
      ensures Outcome(View(), Some(next), None) == EditSealed(View(), c, edit, mutationId, ciphertext)
    {
      match edit {
        case Resolve(itemId, _, current, _) =>
          return Dequeuing(c, edit, Mutation(mutationId, itemId, c.bundle.vaultId, current, ciphertext, ENVELOPE_VERSION, false));
        case _ =>
          var base := if edit.itemId in revisionCache then revisionCache[edit.itemId] else 0;
          return Storing(c, edit, Mutation(mutationId, edit.itemId, c.bundle.vaultId, base, ciphertext, ENVELOPE_VERSION, edit.Delete?));
      }
    }

    method EnqueueAnswered(c: Capture, edit: Edit)
      modifies this
      ensures View() == FinishEdit(old(View()), c, edit)
    {
      match edit {
        case Delete(itemId) => deletedLocally := deletedLocally + {itemId};
        case _ =>
          if IsGenerationCurrent(c.generation) {
            itemCache := itemCache[edit.itemId := Cached(edit.data, c.generation)];
            deletedLocally := deletedLocally - {edit.itemId};
          }
      }
    }
  }
}

/** What every reachable state holds, traced to what the object was told or given. */
module WebVaultSources {
  import opened Wrappers
  import opened SyncModel
  import opened WebVault

  predicate IsTold(records: seq<ItemRecord>, told: set<(Id, int)>) {
    forall j | 0 <= j < |records| :: (records[j].itemId, records[j].revision) in told
  }

  ghost predicate Sourced(v: Vault, told: set<(Id, int)>, texts: set<(Id, Data)>) {
    && (forall id | id in v.revisions :: (id, v.revisions[id]) in told)
    && (forall id | id in v.items :: (id, v.items[id].data) in texts)
  }

  /** The edit's mutation is based on a revision of the item that the object was told, or on none. */
  predicate BasedOnTold(m: Mutation, told: set<(Id, int)>) {
    m.baseRevision == 0 || (m.itemId, m.baseRevision) in told
  }

  predicate SourcedTask(task: Task, told: set<(Id, int)>, texts: set<(Id, Data)>) {
    match task
    case OpeningRecord(_, records) => IsTold(records, told)
    case Sealing(_, edit) => SourcedEdit(edit, told, texts)
    case Dequeuing(_, edit, m) => SourcedEdit(edit, told, texts) && BasedOnTold(m, told)
    case Storing(_, edit, m) => SourcedEdit(edit, told, texts) && BasedOnTold(m, told)
    case Stored(_, edit, m) => SourcedEdit(edit, told, texts) && BasedOnTold(m, told)
    case _ => true
  }

  predicate SourcedEdit(edit: Edit, told: set<(Id, int)>, texts: set<(Id, Data)>) {
    && (!edit.Delete? ==> (edit.itemId, edit.data) in texts)
    && (edit.Resolve? ==> (edit.itemId, edit.currentRevision) in told)
  }

  ghost predicate SourcedState(s: State) {
    && Sourced(s.vault, s.told, s.texts)
    && (forall t | t in s.tasks :: SourcedTask(s.tasks[t], s.told, s.texts))
    && (forall j | 0 <= j < |s.enqueued| :: BasedOnTold(s.enqueued[j].mutation, s.told))
  }

  ghost predicate SourcedOutcome(o: Outcome, told: set<(Id, int)>, texts: set<(Id, Data)>) {
    && Sourced(o.vault, told, texts)
    && (o.next.Some? ==> SourcedTask(o.next.value, told, texts))
    && (o.enqueued.Some? ==> BasedOnTold(o.enqueued.value, told))
  }

  lemma {:induction false} LoadRecordsSourced(v: Vault, c: Capture, records: seq<ItemRecord>, told: set<(Id, int)>, texts: set<(Id, Data)>)
    requires Sourced(v, told, texts) && IsTold(records, told)
    ensures SourcedOutcome(LoadRecords(v, c, records), told, texts)
    decreases |records|
  {
    if v.IsCurrent(c.generation) && records != [] && records[0].deleted {
      var seen := v.(revisions := v.revisions[records[0].itemId := records[0].revision]);
      assert IsTold(records[1..], told);
      LoadRecordsSourced(seen.(deletedLocally := v.deletedLocally + {records[0].itemId}), c, records[1..], told, texts);
    }
  }

  lemma {:induction false} LoadQueueSourced(v: Vault, c: Capture, entries: seq<QueuedMutation>, told: set<(Id, int)>, texts: set<(Id, Data)>)
    requires Sourced(v, told, texts)
    ensures SourcedOutcome(LoadQueue(v, c, entries), told, texts)
    decreases |entries|
  {
    if v.IsCurrent(c.generation) && entries != [] {
      var m := entries[0].mutation;
      if entries[0].state.Conflicted? || m.vaultId != c.bundle.vaultId {
        LoadQueueSourced(v, c, entries[1..], told, texts);
      } else if m.deleted {
        LoadQueueSourced(v.(deletedLocally := v.deletedLocally + {m.itemId}), c, entries[1..], told, texts);
      }
    }
  }

  lemma LoadStepSourced(v: Vault, task: Task, answer: Answer, told: set<(Id, int)>, texts: set<(Id, Data)>)
    requires task.ListingItems? || task.OpeningRecord? || task.ListingQueue? || task.OpeningQueued?
    requires Sourced(v, told, texts) && SourcedTask(task, told, texts)
    requires Told(answer) <= told && Texts(task, answer) <= texts
    ensures SourcedOutcome(Advance(v, task, answer), told, texts)
  {
    match task {
      case ListingItems(c) =>
        if answer.Items? {
          assert forall j | 0 <= j < |answer.records| :: answer.records[j] in answer.records;
          LoadRecordsSourced(v, c, answer.records, told, texts);
        }
      case OpeningRecord(c, records) =>
        if records != [] {
          assert IsTold(records[1..], told);
          LoadRecordsSourced(v, c, records[1..], told, texts);
          if answer.Plaintext? {
            LoadRecordsSourced(CacheItem(v, c, records[0].itemId, answer.data), c, records[1..], told, texts);
          }
        }
      case ListingQueue(c) => if answer.Queue? { LoadQueueSourced(v, c, answer.entries, told, texts); }
      case OpeningQueued(c, entries) =>
        if entries != [] {
          LoadQueueSourced(v, c, entries[1..], told, texts);
          if answer.Plaintext? {
            var id := entries[0].mutation.itemId;
            var cached := CacheItem(v, c, id, answer.data).(deletedLocally := v.deletedLocally - {id});
            LoadQueueSourced(cached, c, entries[1..], told, texts);
          }
        }
    }
  }

  lemma AdvanceSourced(v: Vault, task: Task, answer: Answer, told: set<(Id, int)>, texts: set<(Id, Data)>)
    requires Sourced(v, told, texts) && SourcedTask(task, told, texts)
    requires Told(answer) <= told && Texts(task, answer) <= texts
    ensures SourcedOutcome(Advance(v, task, answer), told, texts)
  {
    if task.ListingItems? || task.OpeningRecord? || task.ListingQueue? || task.OpeningQueued? {
      LoadStepSourced(v, task, answer, told, texts);
    }
  }

  /** Hearing more keeps every source. */
  lemma MoreIsSourced(s: State, told: set<(Id, int)>, texts: set<(Id, Data)>)
    requires SourcedState(s)
    ensures SourcedState(Hears(s, told, texts))
  {
    var w := Hears(s, told, texts);
    forall t | t in w.tasks
      ensures SourcedTask(w.tasks[t], w.told, w.texts)
    {
      assert SourcedTask(s.tasks[t], s.told, s.texts);
    }
  }

  lemma AfterIsSourced(s: State, task: nat, o: Outcome)
    requires SourcedState(s) && SourcedOutcome(o, s.told, s.texts)
    ensures SourcedState(WebVault.After(s, task, o))
  {
  }

  lemma StepIsSourced(s: State, event: Event)
    requires SourcedState(s)
    ensures SourcedState(Step(s, event))
  {
    match event {
      case Start(call) =>
        var heard := HearsCall(s, call);
        MoreIsSourced(s, heard.told, heard.texts);
        assert heard == Hears(s, heard.told, heard.texts);
        AfterIsSourced(heard, s.next, Begin(s.vault, call));
      case Settle(task, answer) =>
        if task in s.tasks && task != s.next {
          var heard := Hears(s, Told(answer), Texts(s.tasks[task], answer));
          MoreIsSourced(s, Told(answer), Texts(s.tasks[task], answer));
          AdvanceSourced(heard.vault, heard.tasks[task], answer, heard.told, heard.texts);
          AfterIsSourced(heard, task, Advance(s.vault, s.tasks[task], answer));
        }
    }
  }

  lemma {:induction false} RunIsSourced(s: State, events: seq<Event>)
    requires SourcedState(s)
    ensures SourcedState(Run(s, events))
    decreases |events|
  {
    if events != [] {
      StepIsSourced(s, events[0]);
      RunIsSourced(Step(s, events[0]), events[1..]);
    }
  }
}
