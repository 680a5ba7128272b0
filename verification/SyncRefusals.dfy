/** When a client refuses a record of an honest server: exactly when it holds a later revision. */
module SyncRefusals {
  import opened Wrappers
  import opened SyncModel
  import opened SyncLedger
  import opened SyncWorld
  import opened SyncInvariant
  import opened SyncPreservation
  import opened SyncTheorems

  /** The client holds a later revision of the record's item. */
  predicate Regresses(items: map<Key, ItemRecord>, record: ItemRecord) {
    record.At() in items && record.revision < items[record.At()].revision
  }

  lemma KnownPutsOnlyRegress(l: Ledger, items: map<Key, ItemRecord>, record: ItemRecord)
    requires ItemsInv(l, items) && l.Knows(record)
    ensures !MonotonicPut(items, record) <==> Regresses(items, record)
  {
    if record.At() in items && items[record.At()].revision == record.revision {
      KnownIsUnique(l, items[record.At()], record);
    }
  }

  function NextRecord(cl: Client, t: nat): ItemRecord
    requires Ready(cl, PullPut(t))
  {
    cl.pulls[t].phase.page.changes[cl.pulls[t].phase.applied]
  }

  /** In every run `putItem` refuses a page's record only as `revision-regression`,
      never as `revision-mismatch`. */
  lemma PagesAreRefusedOnlyByRegression(accounts: map<nat, Id>, run: seq<Event>, c: nat, t: nat)
    requires c in Run(accounts, run).clients && Ready(Run(accounts, run).clients[c], PullPut(t))
    ensures var cl := Run(accounts, run).clients[c];
            !MonotonicPut(cl.items, NextRecord(cl, t)) <==> Regresses(cl.items, NextRecord(cl, t))
  {
    RunKeepsInv(accounts, run);
    var w := Run(accounts, run);
    var cl := w.clients[c];
    assert ClientInv(w, cl);
    assert PullInv(w, cl.account, cl.items, cl.pulls[t]);
    KnownPutsOnlyRegress(w.ledger, cl.items, NextRecord(cl, t));
  }

  /** Nor does it refuse the record of a 201, first or replayed, in any other way. */
  lemma RepliesAreRefusedOnlyByRegression(accounts: map<nat, Id>, run: seq<Event>, c: nat, t: nat, item: ItemRecord)
    requires c in Run(accounts, run).clients
    requires Enabled(Run(accounts, run), Run(accounts, run).clients[c], PushReply(t, Created(item)))
    ensures var cl := Run(accounts, run).clients[c];
            !MonotonicPut(cl.items, item) <==> Regresses(cl.items, item)
  {
    RunKeepsInv(accounts, run);
    var w := Run(accounts, run);
    var cl := w.clients[c];
    assert ClientInv(w, cl);
    ReceivedIsValid(w, c, PushReply(t, Created(item)));
    assert OutcomeInv(w.ledger, RequestId(cl.account, cl.pushes[t].entry.mutation.mutationId), Created(item));
    KnownPutsOnlyRegress(w.ledger, cl.items, item);
  }

  // The worlds a run passes through.

  ghost function Reached(accounts: map<nat, Id>, run: seq<Event>, n: nat): World
    requires n <= |run|
  {
    Run(accounts, run[..n])
  }

  lemma ReachedNext(accounts: map<nat, Id>, run: seq<Event>, n: nat)
    requires n < |run|
    ensures Reached(accounts, run, n + 1) == Step(Reached(accounts, run, n), run[n])
    ensures Inv(Reached(accounts, run, n)) && Reached(accounts, run, n).clients.Keys == accounts.Keys
    ensures FeedsInv(Reached(accounts, run, n))
  {
    assert run[..n + 1][..n] == run[..n];
    RunKeepsInv(accounts, run[..n]);
  }

  lemma ReachedFirst(accounts: map<nat, Id>, run: seq<Event>)
    ensures Reached(accounts, run, 0) == Init(accounts)
  {
  }

  // The answer a page came from.

  /** Task t is a pull waiting for the request, or applying the page. */
  predicate Follows(w: World, c: nat, t: nat, req: nat, page: Page) {
    && c in w.clients
    && t in w.clients[c].pulls
    && var phase := w.clients[c].pulls[t].phase;
       phase == Waiting(req) || (phase.Applying? && phase.page == page)
  }

  predicate Waits(w: World, c: nat, t: nat, req: nat) {
    c in w.clients && t in w.clients[c].pulls && w.clients[c].pulls[t].phase == Waiting(req)
  }

  ghost predicate AnswersWith(w: World, e: Event, req: nat, page: Page) {
    && e.AnswerFeed?
    && e.request == req
    && CanAnswer(w, req, e.rows)
    && page == PageOf(e.rows, w.net.feeds[req].after)
  }

  /** Event i answered the request of task t with the page, and the task has waited
      for it or applied it ever since, up to world n. */
  ghost predicate Answered(accounts: map<nat, Id>, run: seq<Event>, i: nat, n: nat, c: nat, t: nat, req: nat, page: Page) {
    && i < n <= |run|
    && AnswersWith(Reached(accounts, run, i), run[i], req, page)
    && Waits(Reached(accounts, run, i), c, t, req)
    && (forall k | i < k <= n :: Follows(Reached(accounts, run, k), c, t, req, page))
  }

  /** The only step that moves a client is one of its own. */
  lemma OnlyItsActsMoveAClient(w: World, e: Event, c: nat)
    requires c in w.clients
    ensures c in Step(w, e).clients
    ensures if e.Act? && e.client == c && Enabled(w, w.clients[c], e.action)
            then Step(w, e) == ActStep(w, c, e.action) && Step(w, e).clients[c] == ClientStep(w.clients[c], e.action)
            else Step(w, e).clients[c] == w.clients[c]
  {
    hide ClientStep, Transact, ApplyMutation;
  }

  lemma OnlyASendWaits(cl: Client, a: Action, t: nat, req: nat)
    requires Ready(cl, a) && t in ClientStep(cl, a).pulls && ClientStep(cl, a).pulls[t].phase == Waiting(req)
    ensures a == PullSend(t, req) || (t in cl.pulls && cl.pulls[t].phase == Waiting(req))
  {
    hide MonotonicPut;
  }

  lemma OnlyAReceiptApplies(cl: Client, a: Action, t: nat)
    requires Ready(cl, a) && t in ClientStep(cl, a).pulls && ClientStep(cl, a).pulls[t].phase.Applying?
    ensures t in cl.pulls
    ensures var page := ClientStep(cl, a).pulls[t].phase.page;
            a == PullReceive(t, page) || (cl.pulls[t].phase.Applying? && cl.pulls[t].phase.page == page)
  {
    hide MonotonicPut;
  }

  /** One step back from a waiting pull whose request has been answered. */
  lemma WaitingStep(w: World, e: Event, c: nat, t: nat, req: nat, page: Page)
    requires FeedsInv(w) && c in w.clients && Waits(Step(w, e), c, t, req) && (req, page) in Step(w, e).net.pages
    ensures Waits(w, c, t, req)
    ensures (req, page) in w.net.pages || AnswersWith(w, e, req, page)
  {
    hide ClientStep, Transact, ApplyMutation, PageInv;
    OnlyItsActsMoveAClient(w, e, c);
    if e.Act? && e.client == c && Enabled(w, w.clients[c], e.action) {
      OnlyASendWaits(w.clients[c], e.action, t, req);
      var r := (req, page);
      assert r in w.net.pages ==> r.0 in w.net.feeds;
    }
  }

  /** One step back from a pull applying a page. */
  lemma ApplyingStep(w: World, e: Event, c: nat, t: nat, page: Page)
    requires c in w.clients && c in Step(w, e).clients && t in Step(w, e).clients[c].pulls
    requires Step(w, e).clients[c].pulls[t].phase.Applying? && Step(w, e).clients[c].pulls[t].phase.page == page
    ensures t in w.clients[c].pulls
    ensures var phase := w.clients[c].pulls[t].phase;
            || (phase.Applying? && phase.page == page)
            || (phase.Waiting? && (phase.request, page) in w.net.pages)
  {
    hide Step, ClientStep;
    OnlyItsActsMoveAClient(w, e, c);
    if e.Act? && e.client == c && Enabled(w, w.clients[c], e.action) {
      OnlyAReceiptApplies(w.clients[c], e.action, t);
    }
  }

  lemma {:induction false} WaitingWasAnswered(accounts: map<nat, Id>, run: seq<Event>, n: nat, c: nat, t: nat, req: nat, page: Page) returns (i: nat)
    requires c in accounts && n <= |run| && Waits(Reached(accounts, run, n), c, t, req) && (req, page) in Reached(accounts, run, n).net.pages
    ensures Answered(accounts, run, i, n, c, t, req, page)
  {
    hide Run, Step, Inv, FeedsInv, CanAnswer;
    if n == 0 {
      ReachedFirst(accounts, run);
      assert false;
    } else {
      ReachedNext(accounts, run, n - 1);
      var w := Reached(accounts, run, n - 1);
      WaitingStep(w, run[n - 1], c, t, req, page);
      if (req, page) in w.net.pages {
        i := WaitingWasAnswered(accounts, run, n - 1, c, t, req, page);
      } else {
        i := n - 1;
      }
    }
  }

  /** Every page a pull applies answers the request it sent. */
  lemma {:induction false} PageWasAnswered(accounts: map<nat, Id>, run: seq<Event>, n: nat, c: nat, t: nat) returns (i: nat, req: nat)
    requires n <= |run| && c in accounts && c in Reached(accounts, run, n).clients
    requires t in Reached(accounts, run, n).clients[c].pulls && Reached(accounts, run, n).clients[c].pulls[t].phase.Applying?
    ensures Answered(accounts, run, i, n, c, t, req, Reached(accounts, run, n).clients[c].pulls[t].phase.page)
  {
    hide Run, Step, Inv, FeedsInv, CanAnswer;
    if n == 0 {
      ReachedFirst(accounts, run);
      assert false;
    } else {
      ReachedNext(accounts, run, n - 1);
      var w := Reached(accounts, run, n - 1);
      var page := Reached(accounts, run, n).clients[c].pulls[t].phase.page;
      ApplyingStep(w, run[n - 1], c, t, page);
      if w.clients[c].pulls[t].phase.Applying? {
        i, req := PageWasAnswered(accounts, run, n - 1, c, t);
      } else {
        req := w.clients[c].pulls[t].phase.request;
        i := WaitingWasAnswered(accounts, run, n - 1, c, t, req, page);
      }
    }
  }

  // Overtaking.

  /** The record a step of the client stores. */
  function Puts(cl: Client, a: Action): (stored: Option<ItemRecord>)
    requires Ready(cl, a)
  {
    match a
    case PullPut(t) =>
      var record := NextRecord(cl, t);
      if record.vaultId == cl.pulls[t].vaultId && MonotonicPut(cl.items, record) then Some(record) else None
    case PushReply(_, Created(item)) => if MonotonicPut(cl.items, item) then Some(item) else None
    case _ => None
  }

  /** `putItem` is the only way an item changes. */
  lemma OnlyPutsStore(cl: Client, a: Action)
    requires Ready(cl, a)
    ensures ClientStep(cl, a).items ==
            match Puts(cl, a) { case Some(r) => cl.items[r.At() := r] case None => cl.items }
  {
  }

  /** Another task of the client stores a later revision of the record's item. */
  ghost predicate Overtakes(w: World, e: Event, c: nat, t: nat, record: ItemRecord) {
    && e.Act?
    && e.client == c
    && c in w.clients
    && Enabled(w, w.clients[c], e.action)
    && e.action != PullPut(t)
    && Puts(w.clients[c], e.action).Some?
    && Puts(w.clients[c], e.action).value.At() == record.At()
    && record.revision < Puts(w.clients[c], e.action).value.revision
  }

  ghost predicate OvertakenAt(accounts: map<nat, Id>, run: seq<Event>, n: nat, c: nat, t: nat, record: ItemRecord)
    requires n < |run|
  {
    Overtakes(Reached(accounts, run, n), run[n], c, t, record)
  }

  /** A step that makes the client's record later than the pull's overtakes it. */
  lemma FirstAheadOvertakes(w: World, e: Event, c: nat, t: nat, req: nat, page: Page, j: nat)
    requires Inv(w) && Follows(w, c, t, req, page) && j < |page.changes|
    requires c in Step(w, e).clients && Regresses(Step(w, e).clients[c].items, page.changes[j])
    requires !Regresses(w.clients[c].items, page.changes[j])
    requires forall k | 0 <= k < |page.changes| && k != j :: page.changes[k].At() != page.changes[j].At()
    ensures Overtakes(w, e, c, t, page.changes[j])
  {
    hide Step, ClientStep;
    OnlyItsActsMoveAClient(w, e, c);
    OnlyPutsStore(w.clients[c], e.action);
  }

  lemma StepKeepsAhead(w: World, e: Event, c: nat, record: ItemRecord)
    requires c in w.clients && Regresses(w.clients[c].items, record)
    ensures c in Step(w, e).clients && Regresses(Step(w, e).clients[c].items, record)
  {
    hide Step, ClientStep;
    OnlyItsActsMoveAClient(w, e, c);
    if e.Act? && e.client == c && Enabled(w, w.clients[c], e.action) {
      OnlyPutsStore(w.clients[c], e.action);
    }
  }

  lemma OvertakingPutsAhead(w: World, e: Event, c: nat, t: nat, record: ItemRecord)
    requires Overtakes(w, e, c, t, record)
    ensures c in Step(w, e).clients && Regresses(Step(w, e).clients[c].items, record)
  {
    hide Step, ClientStep;
    OnlyItsActsMoveAClient(w, e, c);
    OnlyPutsStore(w.clients[c], e.action);
  }

  /** When the server answers, no client is ahead of the page. */
  lemma AnswersAreNotBehind(w: World, e: Event, req: nat, page: Page, cl: Client, j: nat)
    requires Inv(w) && ItemsInv(w.ledger, cl.items) && AnswersWith(w, e, req, page) && j < |page.changes|
    ensures !Regresses(cl.items, page.changes[j])
  {
    var f := w.net.feeds[req];
    assert IsFeedRow(w.ledger.tables, f.vaultId, f.after, e.rows[j]);
    if page.changes[j].At() in cl.items {
      KnownIsNotAhead(w.ledger, cl.items[page.changes[j].At()]);
    }
  }

  lemma AnsweredPageIsDistinct(w: World, e: Event, req: nat, page: Page, j: nat)
    requires Inv(w) && AnswersWith(w, e, req, page) && j < |page.changes|
    ensures forall k | 0 <= k < |page.changes| && k != j :: page.changes[k].At() != page.changes[j].At()
  {
    AnswerIsCovering(w.ledger, w.net.feeds[req].vaultId, w.net.feeds[req].after, e.rows);
  }

  /** One step of the characterisation below. */
  lemma AheadStep(w: World, e: Event, c: nat, t: nat, req: nat, page: Page, j: nat)
    requires Inv(w) && Follows(w, c, t, req, page) && j < |page.changes| && c in Step(w, e).clients
    requires forall k | 0 <= k < |page.changes| && k != j :: page.changes[k].At() != page.changes[j].At()
    ensures Regresses(Step(w, e).clients[c].items, page.changes[j])
            <==> Regresses(w.clients[c].items, page.changes[j]) || Overtakes(w, e, c, t, page.changes[j])
  {
    hide Step, Overtakes, Inv;
    if Regresses(w.clients[c].items, page.changes[j]) {
      StepKeepsAhead(w, e, c, page.changes[j]);
    } else if Regresses(Step(w, e).clients[c].items, page.changes[j]) {
      FirstAheadOvertakes(w, e, c, t, req, page, j);
    } else if Overtakes(w, e, c, t, page.changes[j]) {
      OvertakingPutsAhead(w, e, c, t, page.changes[j]);
    }
  }

  lemma NotAheadAfterAnswer(w: World, e: Event, c: nat, req: nat, page: Page, j: nat)
    requires Inv(w) && c in w.clients && AnswersWith(w, e, req, page) && j < |page.changes|
    ensures c in Step(w, e).clients && !Regresses(Step(w, e).clients[c].items, page.changes[j])
  {
    assert ClientInv(w, w.clients[c]);
    AnswersAreNotBehind(w, e, req, page, w.clients[c], j);
  }

  lemma {:induction false} AheadIffOvertaken(accounts: map<nat, Id>, run: seq<Event>, i: nat, n: nat, c: nat, t: nat, req: nat, page: Page, j: nat)
    requires Answered(accounts, run, i, n, c, t, req, page) && j < |page.changes|
    ensures Follows(Reached(accounts, run, n), c, t, req, page)
    ensures Regresses(Reached(accounts, run, n).clients[c].items, page.changes[j])
            <==> exists k :: i < k < n && OvertakenAt(accounts, run, k, c, t, page.changes[j])
    decreases n
  {
    hide Reached, Run, Step, Inv, Overtakes, Regresses, CanAnswer;
    ReachedNext(accounts, run, i);
    ReachedNext(accounts, run, n - 1);
    if n == i + 1 {
      NotAheadAfterAnswer(Reached(accounts, run, i), run[i], c, req, page, j);
    } else {
      AheadIffOvertaken(accounts, run, i, n - 1, c, t, req, page, j);
      AnsweredPageIsDistinct(Reached(accounts, run, i), run[i], req, page, j);
      AheadStep(Reached(accounts, run, n - 1), run[n - 1], c, t, req, page, j);
      assert OvertakenAt(accounts, run, n - 1, c, t, page.changes[j]) <==> Overtakes(Reached(accounts, run, n - 1), run[n - 1], c, t, page.changes[j]);
    }
  }

  /** A record of a page ends its pull exactly when, after the server answered with
      the page, another task of the client stored a later revision of the item. */
  lemma RefusedIffOvertaken(accounts: map<nat, Id>, run: seq<Event>, i: nat, c: nat, t: nat, req: nat)
    requires c in Run(accounts, run).clients && Ready(Run(accounts, run).clients[c], PullPut(t))
    requires Answered(accounts, run, i, |run|, c, t, req, Run(accounts, run).clients[c].pulls[t].phase.page)
    ensures var cl := Run(accounts, run).clients[c];
            t !in OnPut(cl, t).pulls <==> exists n :: i < n < |run| && OvertakenAt(accounts, run, n, c, t, NextRecord(cl, t))
  {
    assert run[..|run|] == run;
    var cl := Run(accounts, run).clients[c];
    AheadIffOvertaken(accounts, run, i, |run|, c, t, req, cl.pulls[t].phase.page, cl.pulls[t].phase.applied);
    PagesAreRefusedOnlyByRegression(accounts, run, c, t);
    VaultCheckAlwaysPasses(accounts, run, c, t);
  }

  /** No other task runs beside a pull. */
  ghost predicate Exclusive(cl: Client) {
    && (forall t, u | t in cl.pulls && u in cl.pulls :: t == u)
    && (forall t, u | t in cl.pulls :: u !in cl.pushes)
  }

  /** For a client that runs nothing beside a pull, no record of a page is refused,
      although its earlier pushes and retries wrote records directly. */
  lemma HonestServerIsNeverRefused(accounts: map<nat, Id>, run: seq<Event>, c: nat, t: nat)
    requires c in accounts
    requires forall n | 0 <= n <= |run| :: c in Run(accounts, run[..n]).clients && Exclusive(Run(accounts, run[..n]).clients[c])
    requires c in Run(accounts, run).clients && Ready(Run(accounts, run).clients[c], PullPut(t))
    ensures var cl := Run(accounts, run).clients[c];
            var record := cl.pulls[t].phase.page.changes[cl.pulls[t].phase.applied];
            record.vaultId == cl.pulls[t].vaultId && MonotonicPut(cl.items, record)
  {
    var cl := Run(accounts, run).clients[c];
    assert run[..|run|] == run;
    var i, req := PageWasAnswered(accounts, run, |run|, c, t);
    RefusedIffOvertaken(accounts, run, i, c, t, req);
    VaultCheckAlwaysPasses(accounts, run, c, t);
    forall n | i < n < |run|
      ensures !OvertakenAt(accounts, run, n, c, t, NextRecord(cl, t))
    {
      assert Follows(Reached(accounts, run, n), c, t, req, cl.pulls[t].phase.page);
      assert Exclusive(Run(accounts, run[..n]).clients[c]);
    }
  }
}
