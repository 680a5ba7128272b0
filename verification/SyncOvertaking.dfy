/**
 Runs of one client from empty tables: two in which an honest server's page is refused
 because a push, or a second pull, stores a later revision first, and a pull by itself.
 */
module SyncOvertaking {
  import opened Wrappers
  import opened SyncModel
  import opened SyncLedger
  import opened SyncWorld
  import opened SyncRefusals

  lemma RunThen(accounts: map<nat, Id>, run: seq<Event>, e: Event)
    ensures Run(accounts, run + [e]) == Step(Run(accounts, run), e)
  {
    assert (run + [e])[..|run|] == run;
  }

  function Entry(m: Mutation): QueuedMutation {
    QueuedMutation(m, Dirty, 0, None)
  }

  // The stretches of the runs.

  /** The application enqueues an edit, task t sends it, and the server commits it. */
  function Submit(account: Id, m: Mutation, t: nat): seq<Event> {
    [Act(0, Enqueue(m)), Act(0, PushStart(t, Entry(m))), Act(0, PushSend(t)), Deliver(account, m, 0)]
  }

  /** Task t starts a one-page pull, asks for the page, and the server answers with the row. */
  function Ask(vaultId: Id, t: nat, req: nat, row: Row): seq<Event> {
    [Act(0, PullStart(t, vaultId, 1)), Act(0, PullSend(t, req)), AnswerFeed(req, [row])]
  }

  /** What `Submit` leaves. */
  ghost predicate Submitted(w: World, w': World, account: Id, m: Mutation, t: nat) {
    && 0 in w.clients && 0 in w'.clients
    && w'.clients[0].account == account
    && w'.clients[0].items == w.clients[0].items
    && w'.clients[0].cursors == w.clients[0].cursors
    && w'.clients[0].pulls == w.clients[0].pulls
    && w'.clients[0].pushes == w.clients[0].pushes[t := Push(Entry(m), Sent)]
    && w'.ledger == Transact(w.ledger, account, m, 0)
    && w'.issued == w.issued[RequestId(account, m.mutationId) := m]
    && (account, m, ApplyMutation(w.ledger.tables, account, m, 0).1) in w'.net.replies
    && w'.net.feeds == w.net.feeds
    && w.net.pages <= w'.net.pages
  }

  lemma SubmitStep(w: World, account: Id, m: Mutation, t: nat)
    requires 0 in w.clients && w.clients[0].account == account && Idle(w.clients[0], t)
    requires RequestId(account, m.mutationId) !in w.issued
    ensures Submitted(w, Step(Step(Step(Step(w, Submit(account, m, t)[0]), Submit(account, m, t)[1]), Submit(account, m, t)[2]), Submit(account, m, t)[3]), account, m, t)
  {
    var w1 := Step(w, Act(0, Enqueue(m)));
    assert w1.Issued(account, m) && w1.clients[0].pulls == w.clients[0].pulls && w1.clients[0].pushes == w.clients[0].pushes;
    var w2 := Step(w1, Act(0, PushStart(t, Entry(m))));
    assert w2.clients[0].pushes == w.clients[0].pushes[t := Push(Entry(m), Starting)];
    var w3 := Step(w2, Act(0, PushSend(t)));
    assert w3.clients[0].pushes == w.clients[0].pushes[t := Push(Entry(m), Sent)];
    assert (account, m) in w3.net.mutations;
  }

  lemma SubmitRuns(accounts: map<nat, Id>, run: seq<Event>, account: Id, m: Mutation, t: nat)
    requires var w := Run(accounts, run);
             && 0 in w.clients && w.clients[0].account == account && Idle(w.clients[0], t)
             && RequestId(account, m.mutationId) !in w.issued
    ensures Submitted(Run(accounts, run), Run(accounts, run + Submit(account, m, t)), account, m, t)
  {
    hide Run, Step, Submitted;
    var s := Submit(account, m, t);
    RunThen(accounts, run, s[0]);
    RunThen(accounts, run + [s[0]], s[1]);
    RunThen(accounts, run + [s[0]] + [s[1]], s[2]);
    RunThen(accounts, run + [s[0]] + [s[1]] + [s[2]], s[3]);
    assert run + s == run + [s[0]] + [s[1]] + [s[2]] + [s[3]];
    SubmitStep(Run(accounts, run), account, m, t);
  }

  /** What `Ask` leaves. */
  ghost predicate Asked(w: World, w': World, vaultId: Id, t: nat, req: nat, row: Row) {
    && 0 in w.clients && 0 in w'.clients
    && w'.clients[0] == w.clients[0].(pulls := w.clients[0].pulls[t := Pull(vaultId, None, 1, Waiting(req))])
    && w'.ledger == w.ledger
    && w'.issued == w.issued
    && w'.net.replies == w.net.replies
    && w'.net.feeds.Keys == w.net.feeds.Keys + {req}
    && w'.net.pages == w.net.pages + {(req, PageOf([row], 0))}
  }

  lemma AskStep(w: World, vaultId: Id, t: nat, req: nat, row: Row)
    requires 0 in w.clients && Idle(w.clients[0], t) && vaultId !in w.clients[0].cursors && req !in w.net.feeds
    requires Owns(w.ledger.tables, w.clients[0].account, vaultId) && IsFeedPage(w.ledger.tables, vaultId, 0, FEED_LIMIT, [row])
    ensures Asked(w, Step(Step(Step(w, Ask(vaultId, t, req, row)[0]), Ask(vaultId, t, req, row)[1]), Ask(vaultId, t, req, row)[2]), vaultId, t, req, row)
  {
    var w1 := Step(w, Act(0, PullStart(t, vaultId, 1)));
    assert w1.clients[0].pulls == w.clients[0].pulls[t := Pull(vaultId, None, 1, Asking)];
    var w2 := Step(w1, Act(0, PullSend(t, req)));
    assert w2.clients[0].pulls == w.clients[0].pulls[t := Pull(vaultId, None, 1, Waiting(req))];
    assert CanAnswer(w2, req, [row]);
  }

  lemma AskRuns(accounts: map<nat, Id>, run: seq<Event>, vaultId: Id, t: nat, req: nat, row: Row)
    requires var w := Run(accounts, run);
             && 0 in w.clients && Idle(w.clients[0], t) && vaultId !in w.clients[0].cursors && req !in w.net.feeds
             && Owns(w.ledger.tables, w.clients[0].account, vaultId) && IsFeedPage(w.ledger.tables, vaultId, 0, FEED_LIMIT, [row])
    ensures Asked(Run(accounts, run), Run(accounts, run + Ask(vaultId, t, req, row)), vaultId, t, req, row)
  {
    hide Run, Step, Asked, IsFeedPage;
    var s := Ask(vaultId, t, req, row);
    RunThen(accounts, run, s[0]);
    RunThen(accounts, run + [s[0]], s[1]);
    RunThen(accounts, run + [s[0]] + [s[1]], s[2]);
    assert run + s == run + [s[0]] + [s[1]] + [s[2]];
    AskStep(Run(accounts, run), vaultId, t, req, row);
  }

  /** The only row of the vault is its page. */
  lemma SingleRowPage(t: Tables, key: Key, row: Row)
    requires t.items == map[key := row] && row.record.At() == key && 0 < row.sequence
    ensures IsFeedPage(t, key.vaultId, 0, FEED_LIMIT, [row])
  {
    assert [row][0] == row;
  }

  // Both runs begin alike.

  /** Two edits of one item, the second made on the first's revision. */
  predicate TwoEdits(m1: Mutation, m2: Mutation) {
    m1.At() == m2.At() && m1.mutationId != m2.mutationId && m1.baseRevision == 0 && m2.baseRevision == 1
  }

  function FirstRow(m: Mutation): Row {
    UpsertedRow(EMPTY_TABLES, m, 0)
  }

  function SecondRow(account: Id, m1: Mutation, m2: Mutation): Row {
    UpsertedRow(CommitWrite(EMPTY_TABLES, account, m1, 0), m2, 0)
  }

  /** The first edit is committed, pull 3 is answered with it, and the second is committed. */
  function Beginning(account: Id, m1: Mutation, m2: Mutation): seq<Event> {
    Submit(account, m1, 1) + Ask(m1.vaultId, 3, 0, FirstRow(m1)) + Submit(account, m2, 2)
  }

  /** The second edit is the row, the first still travels as a page of pull 3. */
  ghost predicate Begun(w: World, account: Id, m1: Mutation, m2: Mutation) {
    && 0 in w.clients
    && w.clients[0].account == account
    && w.clients[0].items == map[]
    && w.clients[0].cursors == map[]
    && w.clients[0].pulls == map[3 := Pull(m1.vaultId, None, 1, Waiting(0))]
    && w.clients[0].pushes == map[1 := Push(Entry(m1), Sent), 2 := Push(Entry(m2), Sent)]
    && w.ledger.tables.items == map[m1.At() := SecondRow(account, m1, m2)]
    && Owns(w.ledger.tables, account, m1.vaultId)
    && (account, m2, Created(SecondRow(account, m1, m2).record)) in w.net.replies
    && w.net.feeds.Keys == {0}
    && (0, PageOf([FirstRow(m1)], 0)) in w.net.pages
  }

  lemma FirstWrite(l: Ledger, account: Id, m: Mutation)
    requires l == EMPTY_LEDGER && m.baseRevision == 0
    ensures Transact(l, account, m, 0).tables == CommitWrite(EMPTY_TABLES, account, m, 0)
    ensures CommitWrite(EMPTY_TABLES, account, m, 0).items == map[m.At() := FirstRow(m)]
    ensures Owns(CommitWrite(EMPTY_TABLES, account, m, 0), account, m.vaultId)
    ensures FirstRow(m).record.revision == 1 && FirstRow(m).record.At() == m.At() && 0 < FirstRow(m).sequence
  {
  }

  lemma SecondWrite(l: Ledger, account: Id, m1: Mutation, m2: Mutation)
    requires TwoEdits(m1, m2) && l.tables == CommitWrite(EMPTY_TABLES, account, m1, 0)
    ensures Transact(l, account, m2, 0).tables.items == map[m1.At() := SecondRow(account, m1, m2)]
    ensures ApplyMutation(l.tables, account, m2, 0).1 == Created(SecondRow(account, m1, m2).record)
    ensures Owns(Transact(l, account, m2, 0).tables, account, m1.vaultId)
    ensures SecondRow(account, m1, m2).record.revision == 2 && SecondRow(account, m1, m2).record.At() == m1.At()
    ensures 0 < SecondRow(account, m1, m2).sequence
  {
  }

  lemma Begins(account: Id, m1: Mutation, m2: Mutation)
    requires TwoEdits(m1, m2)
    ensures Begun(Run(map[0 := account], Beginning(account, m1, m2)), account, m1, m2)
  {
    hide Run, Step, UpsertedRow, CommitWrite, ApplyMutation, Transact, PageOf, IsFeedPage, Submit, Ask;
    var accounts := map[0 := account];
    var run1 := Submit(account, m1, 1);
    var run2 := run1 + Ask(m1.vaultId, 3, 0, FirstRow(m1));
    assert Run(accounts, []) == Init(accounts) by { RunsFromInit(accounts); }
    assert [] + run1 == run1;
    SubmitRuns(accounts, [], account, m1, 1);
    FirstWrite(EMPTY_LEDGER, account, m1);
    SingleRowPage(Run(accounts, run1).ledger.tables, m1.At(), FirstRow(m1));
    AskRuns(accounts, run1, m1.vaultId, 3, 0, FirstRow(m1));
    SubmitRuns(accounts, run2, account, m2, 2);
    SecondWrite(Run(accounts, run2).ledger, account, m1, m2);
  }

  lemma RunsFromInit(accounts: map<nat, Id>)
    ensures Run(accounts, []) == Init(accounts)
  {
  }

  // An interleaved push.

  /** The page arrives, and the second edit's 201 is handled before its record is put. */
  function InterleavedPush(account: Id, m1: Mutation, m2: Mutation): seq<Event> {
    Beginning(account, m1, m2) + [Act(0, PullReceive(3, PageOf([FirstRow(m1)], 0)))]
    + [Act(0, PushReply(2, Created(SecondRow(account, m1, m2).record)))]
  }

  /** The next put of task 3 is refused: the pull ends and stores no cursor. */
  ghost predicate RefusedAtThree(w: World, record: ItemRecord) {
    && 0 in w.clients
    && Ready(w.clients[0], PullPut(3))
    && NextRecord(w.clients[0], 3) == record
    && Regresses(w.clients[0].items, record)
    && 3 !in OnPut(w.clients[0], 3).pulls
    && OnPut(w.clients[0], 3).cursors == map[]
  }

  lemma ReceiveStep(w: World, t: nat, req: nat, page: Page)
    requires 0 in w.clients && t in w.clients[0].pulls && w.clients[0].pulls[t].phase == Waiting(req)
    requires (req, page) in w.net.pages
    ensures var w' := Step(w, Act(0, PullReceive(t, page)));
            && 0 in w'.clients && w'.net == w.net
            && w'.clients[0] == w.clients[0].(pulls := w.clients[0].pulls[t := w.clients[0].pulls[t].(phase := Applying(page, 0))])
  {
  }

  /** Task 3 is about to put the only record of its page, which is behind the client's. */
  lemma RefusedIfBehind(w: World, vaultId: Id, row: Row)
    requires 0 in w.clients && w.clients[0].cursors == map[] && 3 in w.clients[0].pulls
    requires w.clients[0].pulls[3] == Pull(vaultId, None, 1, Applying(PageOf([row], 0), 0))
    requires Regresses(w.clients[0].items, row.record)
    ensures RefusedAtThree(w, row.record)
  {
  }

  lemma ReplyStep(w: World, account: Id, m: Mutation, t: nat, item: ItemRecord)
    requires 0 in w.clients && w.clients[0].account == account && w.clients[0].items == map[]
    requires t in w.clients[0].pushes && w.clients[0].pushes[t] == Push(Entry(m), Sent)
    requires (account, m, Created(item)) in w.net.replies
    ensures var w' := Step(w, Act(0, PushReply(t, Created(item))));
            && 0 in w'.clients
            && w'.clients[0].items == map[item.At() := item]
            && w'.clients[0].pulls == w.clients[0].pulls && w'.clients[0].cursors == w.clients[0].cursors
  {
    assert Enabled(w, w.clients[0], PushReply(t, Created(item)));
  }

  lemma InterleavedPushStep(w: World, account: Id, m1: Mutation, m2: Mutation)
    requires TwoEdits(m1, m2) && Begun(w, account, m1, m2)
    ensures var w1 := Step(w, Act(0, PullReceive(3, PageOf([FirstRow(m1)], 0))));
            RefusedAtThree(Step(w1, Act(0, PushReply(2, Created(SecondRow(account, m1, m2).record)))), FirstRow(m1).record)
  {
    hide CommitWrite, UpsertedRow, Step, RefusedAtThree, PageOf;
    FirstWrite(EMPTY_LEDGER, account, m1);
    SecondWrite(EMPTY_LEDGER.(tables := CommitWrite(EMPTY_TABLES, account, m1, 0)), account, m1, m2);
    var newer := SecondRow(account, m1, m2).record;
    ReceiveStep(w, 3, 0, PageOf([FirstRow(m1)], 0));
    var w1 := Step(w, Act(0, PullReceive(3, PageOf([FirstRow(m1)], 0))));
    ReplyStep(w1, account, m2, 2, newer);
    RefusedIfBehind(Step(w1, Act(0, PushReply(2, Created(newer)))), m1.vaultId, FirstRow(m1));
  }

  /** A push confirmed between a page's answer and its application makes the client
      refuse the page of an honest server. */
  lemma InterleavedPushRefusesPage(account: Id, m1: Mutation, m2: Mutation)
    requires TwoEdits(m1, m2)
    ensures RefusedAtThree(Run(map[0 := account], InterleavedPush(account, m1, m2)), FirstRow(m1).record)
  {
    hide Run, Step, Begun, RefusedAtThree, UpsertedRow, CommitWrite;
    var accounts, run := map[0 := account], Beginning(account, m1, m2);
    Begins(account, m1, m2);
    var e1, e2 := Act(0, PullReceive(3, PageOf([FirstRow(m1)], 0))), Act(0, PushReply(2, Created(SecondRow(account, m1, m2).record)));
    RunThen(accounts, run, e1);
    RunThen(accounts, run + [e1], e2);
    InterleavedPushStep(Run(accounts, run), account, m1, m2);
  }

  // An overlapping pull.

  /** Pull 4 asks after the second edit and stores it before pull 3 puts the first. */
  function OverlappingPull(account: Id, m1: Mutation, m2: Mutation): seq<Event> {
    Beginning(account, m1, m2) + Ask(m1.vaultId, 4, 1, SecondRow(account, m1, m2))
    + [Act(0, PullReceive(4, PageOf([SecondRow(account, m1, m2)], 0)))]
    + [Act(0, PullPut(4))]
    + [Act(0, PullReceive(3, PageOf([FirstRow(m1)], 0)))]
  }

  lemma FirstPutStep(w: World, t: nat, vaultId: Id, row: Row)
    requires 0 in w.clients && w.clients[0].items == map[] && row.record.vaultId == vaultId
    requires t in w.clients[0].pulls && w.clients[0].pulls[t] == Pull(vaultId, None, 1, Applying(PageOf([row], 0), 0))
    ensures var w' := Step(w, Act(0, PullPut(t)));
            && 0 in w'.clients && w'.net == w.net
            && w'.clients[0].items == map[row.record.At() := row.record]
            && w'.clients[0].pulls == w.clients[0].pulls[t := Pull(vaultId, None, 1, Applying(PageOf([row], 0), 1))]
            && w'.clients[0].cursors == w.clients[0].cursors
  {
    assert Enabled(w, w.clients[0], PullPut(t));
  }

  lemma OverlappingPullStep(w0: World, w: World, account: Id, m1: Mutation, m2: Mutation)
    requires TwoEdits(m1, m2) && Begun(w0, account, m1, m2) && Asked(w0, w, m1.vaultId, 4, 1, SecondRow(account, m1, m2))
    ensures var w1 := Step(w, Act(0, PullReceive(4, PageOf([SecondRow(account, m1, m2)], 0))));
            var w2 := Step(w1, Act(0, PullPut(4)));
            RefusedAtThree(Step(w2, Act(0, PullReceive(3, PageOf([FirstRow(m1)], 0)))), FirstRow(m1).record)
  {
    hide CommitWrite, UpsertedRow, Step, RefusedAtThree, PageOf;
    FirstWrite(EMPTY_LEDGER, account, m1);
    SecondWrite(EMPTY_LEDGER.(tables := CommitWrite(EMPTY_TABLES, account, m1, 0)), account, m1, m2);
    var row := SecondRow(account, m1, m2);
    ReceiveStep(w, 4, 1, PageOf([row], 0));
    var w1 := Step(w, Act(0, PullReceive(4, PageOf([row], 0))));
    FirstPutStep(w1, 4, m1.vaultId, row);
    var w2 := Step(w1, Act(0, PullPut(4)));
    ReceiveStep(w2, 3, 0, PageOf([FirstRow(m1)], 0));
    RefusedIfBehind(Step(w2, Act(0, PullReceive(3, PageOf([FirstRow(m1)], 0)))), m1.vaultId, FirstRow(m1));
  }

  /** So does a second pull of the vault. */
  lemma OverlappingPullRefusesPage(account: Id, m1: Mutation, m2: Mutation)
    requires TwoEdits(m1, m2)
    ensures RefusedAtThree(Run(map[0 := account], OverlappingPull(account, m1, m2)), FirstRow(m1).record)
  {
    hide Run, Step, RefusedAtThree, UpsertedRow, CommitWrite, IsFeedPage, Asked;
    var accounts, run := map[0 := account], Beginning(account, m1, m2);
    Begins(account, m1, m2);
    FirstWrite(EMPTY_LEDGER, account, m1);
    SecondWrite(EMPTY_LEDGER.(tables := CommitWrite(EMPTY_TABLES, account, m1, 0)), account, m1, m2);
    SingleRowPage(Run(accounts, run).ledger.tables, m1.At(), SecondRow(account, m1, m2));
    AskRuns(accounts, run, m1.vaultId, 4, 1, SecondRow(account, m1, m2));
    var run1 := run + Ask(m1.vaultId, 4, 1, SecondRow(account, m1, m2));
    var e1, e2, e3 := Act(0, PullReceive(4, PageOf([SecondRow(account, m1, m2)], 0))), Act(0, PullPut(4)), Act(0, PullReceive(3, PageOf([FirstRow(m1)], 0)));
    RunThen(accounts, run1, e1);
    RunThen(accounts, run1 + [e1], e2);
    RunThen(accounts, run1 + [e1] + [e2], e3);
    OverlappingPullStep(Run(accounts, run), Run(accounts, run1), account, m1, m2);
  }

  // A pull by itself.

  /** An edit is committed, and one pull is answered, applied and committed. */
  function OnePull(account: Id, m: Mutation): seq<Event> {
    Submit(account, m, 1) + Ask(m.vaultId, 3, 0, FirstRow(m)) + [Act(0, PullReceive(3, PageOf([FirstRow(m)], 0)))]
    + [Act(0, PullPut(3))] + [Act(0, PullCommit(3))]
  }

  lemma CommitStep(w: World, vaultId: Id, row: Row)
    requires 0 in w.clients && w.clients[0].cursors == map[]
    requires w.clients[0].pulls == map[3 := Pull(vaultId, None, 1, Applying(PageOf([row], 0), 1))]
    ensures var w' := Step(w, Act(0, PullCommit(3)));
            && 0 in w'.clients && w'.ledger == w.ledger
            && w'.clients[0].cursors == map[vaultId := row.sequence] && w'.clients[0].items == w.clients[0].items
            && w'.clients[0].pulls == map[]
  {
    assert Enabled(w, w.clients[0], PullCommit(3));
  }

  lemma OnlyTheClientMoves(w: World, a: Action)
    ensures Step(w, Act(0, a)).ledger == w.ledger
  {
  }

  /** A run that ends with a stored cursor: the client holds exactly the row at it. */
  lemma PullStoresACursor(account: Id, m: Mutation)
    requires m.baseRevision == 0
    ensures var w := Run(map[0 := account], OnePull(account, m));
            && 0 in w.clients && w.ledger.tables.items.Keys == {m.At()}
            && var row := w.ledger.tables.items[m.At()];
               && row.record == ItemRecord(m.itemId, m.vaultId, m.ciphertext, m.envelopeVersion, 1, m.deleted, 0, 0)
               && w.clients[0].items == map[m.At() := row.record]
               && w.clients[0].cursors == map[m.vaultId := row.sequence]
               && w.clients[0].pulls == map[]
  {
    hide Run, Step, CommitWrite, ApplyMutation, Transact, IsFeedPage, Submit, Ask;
    var accounts, row := map[0 := account], FirstRow(m);
    var run1 := Submit(account, m, 1);
    var run2 := run1 + Ask(m.vaultId, 3, 0, row);
    RunsFromInit(accounts);
    assert [] + run1 == run1;
    SubmitRuns(accounts, [], account, m, 1);
    FirstWrite(EMPTY_LEDGER, account, m);
    SingleRowPage(Run(accounts, run1).ledger.tables, m.At(), row);
    AskRuns(accounts, run1, m.vaultId, 3, 0, row);
    var e1, e2, e3 := Act(0, PullReceive(3, PageOf([row], 0))), Act(0, PullPut(3)), Act(0, PullCommit(3));
    RunThen(accounts, run2, e1);
    RunThen(accounts, run2 + [e1], e2);
    RunThen(accounts, run2 + [e1] + [e2], e3);
    PullsOneRow(Run(accounts, run2), m.vaultId, row);
  }

  lemma PullsOneRow(w: World, vaultId: Id, row: Row)
    requires 0 in w.clients && w.clients[0].items == map[] && w.clients[0].cursors == map[] && row.record.vaultId == vaultId
    requires w.clients[0].pulls == map[3 := Pull(vaultId, None, 1, Waiting(0))] && (0, PageOf([row], 0)) in w.net.pages
    ensures var w' := Step(Step(Step(w, Act(0, PullReceive(3, PageOf([row], 0)))), Act(0, PullPut(3))), Act(0, PullCommit(3)));
            && 0 in w'.clients && w'.ledger == w.ledger
            && w'.clients[0].items == map[row.record.At() := row.record] && w'.clients[0].cursors == map[vaultId := row.sequence]
            && w'.clients[0].pulls == map[]
  {
    hide Step, PageOf;
    ReceiveStep(w, 3, 0, PageOf([row], 0));
    var w1 := Step(w, Act(0, PullReceive(3, PageOf([row], 0))));
    OnlyTheClientMoves(w, PullReceive(3, PageOf([row], 0)));
    FirstPutStep(w1, 3, vaultId, row);
    OnlyTheClientMoves(w1, PullPut(3));
    CommitStep(Step(w1, Act(0, PullPut(3))), vaultId, row);
  }
}
