/** Compare-and-swap over every interleaving of calls. */
module KeyBundleTheorems {
  import opened Wrappers
  import opened KeyBundles

  /** The last write of an account in the log. */
  function Latest(commits: seq<Commit>, account: Id): Option<Commit> {
    if commits == [] then None
    else if commits[|commits| - 1].account == account then Some(commits[|commits| - 1])
    else Latest(commits[..|commits| - 1], account)
  }

  predicate HasRow(s: State, account: Id, version: int, bundle: Bundle) {
    account in s.rows && s.rows[account] == Row(bundle, version)
  }

  // Without deletions.

  predicate KeepsRows(events: seq<Event>) {
    forall j | 0 <= j < |events| :: !events[j].DeleteRow?
  }

  /** The row of an account is its last commit. */
  ghost predicate RowsInv(s: State) {
    forall account ::
      match Latest(s.commits, account)
      case None => account !in s.rows
      case Some(c) => c.account == account && HasRow(s, account, c.version, c.bundle)
  }

  /** Every commit's version is one more than the account's previous one, from 1. */
  ghost predicate Consecutive(commits: seq<Commit>) {
    forall j | 0 <= j < |commits| :: commits[j].version == NextVersion(commits[..j], commits[j].account)
  }

  function NextVersion(commits: seq<Commit>, account: Id): int {
    var last := Latest(commits, account);
    if last.None? then 1 else last.value.version + 1
  }

  predicate CallInv(s: State, c: Call) {
    && 1 <= c.version
    && (c.phase.Returned? || c.round == 1 || (c.phase.Selecting? && c.account in s.rows))
    && (c.phase.Inserting? ==> c.version == 1)
    && c.round <= 2
    && c.phase != Returned(RowNotFound)
  }

  predicate Succeeded(c: Call) { c.phase.Returned? && c.phase.outcome.Success() }

  ghost predicate CallsInv(s: State) {
    forall id | id in s.calls :: CallInv(s, s.calls[id])
  }

  ghost predicate SuccessInv(s: State) {
    forall id | id in s.calls && Succeeded(s.calls[id]) ::
      Commit(s.calls[id].account, s.calls[id].version, s.calls[id].bundle) in s.commits
  }

  ghost predicate Inv(s: State) {
    RowsInv(s) && Consecutive(s.commits) && CallsInv(s) && SuccessInv(s)
  }

  lemma {:induction false} LatestIsCommitted(commits: seq<Commit>, account: Id)
    requires Latest(commits, account).Some?
    ensures Latest(commits, account).value in commits && Latest(commits, account).value.account == account
  {
    if commits[|commits| - 1].account != account {
      LatestIsCommitted(commits[..|commits| - 1], account);
    }
  }

  lemma LatestSnoc(commits: seq<Commit>, c: Commit, account: Id)
    ensures Latest(commits + [c], account) == if c.account == account then Some(c) else Latest(commits, account)
  {
    assert (commits + [c])[..|commits|] == commits;
  }

  /** A write of the next version by a call keeps the log and the rows in step. */
  lemma CommitKeeps(s: State, w: State, c: Commit)
    requires RowsInv(s) && Consecutive(s.commits)
    requires w.rows == s.rows[c.account := Row(c.bundle, c.version)] && w.commits == s.commits + [c]
    requires c.version == NextVersion(s.commits, c.account)
    ensures RowsInv(w) && Consecutive(w.commits)
  {
    forall account
      ensures match Latest(w.commits, account)
              case None => account !in w.rows
              case Some(d) => d.account == account && HasRow(w, account, d.version, d.bundle)
    {
      LatestSnoc(s.commits, c, account);
    }
    forall j | 0 <= j < |w.commits|
      ensures w.commits[j].version == NextVersion(w.commits[..j], w.commits[j].account)
    {
      if j < |s.commits| {
        assert w.commits[..j] == s.commits[..j];
      } else {
        assert w.commits[..j] == s.commits;
      }
    }
  }

  lemma AdvanceKeepsLog(s: State, id: nat)
    requires Inv(s) && id in s.calls
    ensures var w := Step(s, Advance(id)); RowsInv(w) && Consecutive(w.commits)
  {
    var w := Step(s, Advance(id));
    var c := s.calls[id];
    if w.commits != s.commits {
      CommitKeeps(s, w, Commit(c.account, c.version, c.bundle));
    } else {
      assert w.rows == s.rows;
    }
  }

  lemma AdvanceKeepsCalls(s: State, id: nat)
    requires CallsInv(s) && id in s.calls
    ensures CallsInv(Step(s, Advance(id)))
  {
  }

  lemma AdvanceCommits(s: State, id: nat)
    requires RowsInv(s) && id in s.calls && !Succeeded(s.calls[id]) && Succeeded(Step(s, Advance(id)).calls[id])
    ensures Commit(s.calls[id].account, s.calls[id].version, s.calls[id].bundle) in Step(s, Advance(id)).commits
  {
    var c := s.calls[id];
    var w := Step(s, Advance(id));
    if Wrote(w.calls[id]) {
      assert w.commits[|s.commits|] == Commit(c.account, c.version, c.bundle);
    } else {
      LatestIsCommitted(s.commits, c.account);
    }
  }

  lemma AdvanceKeepsSuccesses(s: State, id: nat)
    requires RowsInv(s) && SuccessInv(s) && id in s.calls
    ensures SuccessInv(Step(s, Advance(id)))
  {
    var w := Step(s, Advance(id));
    assert forall x | x in s.commits :: x in w.commits;
    forall other | other in w.calls && Succeeded(w.calls[other])
      ensures Commit(w.calls[other].account, w.calls[other].version, w.calls[other].bundle) in w.commits
    {
      if other == id && !Succeeded(s.calls[id]) {
        AdvanceCommits(s, id);
      } else {
        assert w.calls[other] == s.calls[other];
      }
    }
  }

  lemma AdvanceKeepsInv(s: State, id: nat)
    requires Inv(s)
    ensures Inv(Step(s, Advance(id)))
  {
    if id in s.calls {
      AdvanceKeepsLog(s, id);
      AdvanceKeepsCalls(s, id);
      AdvanceKeepsSuccesses(s, id);
    }
  }

  lemma StepKeepsInv(s: State, e: Event)
    requires Inv(s) && !e.DeleteRow?
    ensures Inv(Step(s, e))
  {
    if e.Advance? {
      AdvanceKeepsInv(s, e.id);
    }
  }

  lemma {:induction false} RunKeepsInv(s: State, events: seq<Event>)
    requires Inv(s) && KeepsRows(events)
    ensures Inv(Run(s, events))
    decreases |events|
  {
    if events != [] {
      StepKeepsInv(s, events[0]);
      assert KeepsRows(events[1..]);
      RunKeepsInv(Step(s, events[0]), events[1..]);
    }
  }

  /** The commits of one account up to a point of the log. */
  function CommitsOf(commits: seq<Commit>, account: Id): seq<Commit> {
    if commits == [] then []
    else
      var last := commits[|commits| - 1];
      CommitsOf(commits[..|commits| - 1], account) + if last.account == account then [last] else []
  }

  lemma {:induction false} CommitsAreNumbered(commits: seq<Commit>, account: Id)
    requires Consecutive(commits)
    ensures var own := CommitsOf(commits, account);
            && (forall k | 0 <= k < |own| :: own[k].account == account && own[k].version == k + 1)
            && NextVersion(commits, account) == |own| + 1
            && Latest(commits, account) == if own == [] then None else Some(own[|own| - 1])
  {
    if commits != [] {
      var before := commits[..|commits| - 1];
      forall j | 0 <= j < |before|
        ensures before[j].version == NextVersion(before[..j], before[j].account)
      {
        assert before[..j] == commits[..j];
      }
      CommitsAreNumbered(before, account);
    }
  }

  /** In every run without deletions the committed versions of an account are 1, 2, 3, ...
      with one byte string each, and the row holds the last. */
  lemma VersionsAreConsecutive(events: seq<Event>, account: Id)
    requires KeepsRows(events)
    ensures var s := Run(INIT, events);
            var own := CommitsOf(s.commits, account);
            && (forall k | 0 <= k < |own| :: own[k].account == account && own[k].version == k + 1)
            && (if own == [] then account !in s.rows else HasRow(s, account, |own|, own[|own| - 1].bundle))
  {
    RunKeepsInv(INIT, events);
    var s := Run(INIT, events);
    CommitsAreNumbered(s.commits, account);
    assert Latest(s.commits, account).None? ==> account !in s.rows;
  }

  lemma {:induction false} CommitIsOwn(commits: seq<Commit>, c: Commit)
    requires c in commits
    ensures c in CommitsOf(commits, c.account)
  {
    var before, last := commits[..|commits| - 1], commits[|commits| - 1];
    if last != c {
      assert c in before;
      CommitIsOwn(before, c);
    } else {
      assert CommitsOf(commits, c.account) == CommitsOf(before, c.account) + [c];
    }
  }

  /** Compare-and-swap: two calls that succeed with one version published the same bytes. */
  lemma OneBundlePerVersion(events: seq<Event>, a: nat, b: nat)
    requires KeepsRows(events)
    requires var s := Run(INIT, events);
             && a in s.calls && b in s.calls && Succeeded(s.calls[a]) && Succeeded(s.calls[b])
             && s.calls[a].account == s.calls[b].account && s.calls[a].version == s.calls[b].version
    ensures var s := Run(INIT, events);
            s.calls[a].bundle == s.calls[b].bundle
  {
    RunKeepsInv(INIT, events);
    var s := Run(INIT, events);
    var x := Commit(s.calls[a].account, s.calls[a].version, s.calls[a].bundle);
    var y := Commit(s.calls[b].account, s.calls[b].version, s.calls[b].bundle);
    CommitIsOwn(s.commits, x);
    CommitIsOwn(s.commits, y);
    CommitsAreNumbered(s.commits, x.account);
  }

  /** Without deletions every call returns within two rounds, and never the error after the loop. */
  lemma TwoRoundsSuffice(events: seq<Event>, id: nat)
    requires KeepsRows(events) && id in Run(INIT, events).calls
    ensures var c := Run(INIT, events).calls[id]; c.round <= 2 && c.phase != Returned(RowNotFound)
  {
    RunKeepsInv(INIT, events);
  }

  /** The steps a call still takes at most. */
  function StepsLeft(c: Call): nat {
    if c.phase.Returned? || c.round > 2 then 0
    else if c.round == 2 then 1
    else if c.phase.Selecting? then 3 else 2
  }

  /** Each of its steps brings it nearer to its return: three of them are enough. */
  lemma CallsReturn(events: seq<Event>, id: nat)
    requires KeepsRows(events) && id in Run(INIT, events).calls && !Run(INIT, events).calls[id].phase.Returned?
    ensures var s := Run(INIT, events);
            0 <= StepsLeft(Step(s, Advance(id)).calls[id]) < StepsLeft(s.calls[id]) <= 3
  {
    RunKeepsInv(INIT, events);
  }

  // With deletions.

  /** How often the rows of an account were deleted. */
  function Deletions(events: seq<Event>, account: Id): nat {
    if events == [] then 0
    else (if events[0] == DeleteRow(account) then 1 else 0) + Deletions(events[1..], account)
  }

  /** A call past its first round has seen the row, or a deletion of it since. */
  predicate RoundInv(s: State, id: nat, deletions: nat) {
    id in s.calls ==>
      var c := s.calls[id];
      && 1 <= c.round <= 1 + deletions + (if c.phase.Selecting? && c.account in s.rows then 1 else 0)
                          + (if c.phase.Returned? then 1 else 0)
      && (c.phase == Returned(RowNotFound) ==> MAX_ROUNDS <= 1 + deletions)
  }

  lemma StepKeepsRound(s: State, e: Event, id: nat, deletions: nat)
    requires RoundInv(s, id, deletions)
    ensures RoundInv(Step(s, e), id, deletions + if id in s.calls && e == DeleteRow(s.calls[id].account) then 1 else 0)
  {
  }

  /** The arguments of a call never change. */
  lemma StepKeepsArguments(s: State, e: Event, id: nat)
    requires id in s.calls
    ensures id in Step(s, e).calls && Step(s, e).calls[id].account == s.calls[id].account
  {
  }

  lemma {:induction false} RunKeepsRound(s: State, events: seq<Event>, id: nat, deletions: nat)
    requires id in s.calls && RoundInv(s, id, deletions)
    ensures id in Run(s, events).calls
    ensures RoundInv(Run(s, events), id, deletions + Deletions(events, s.calls[id].account))
    decreases |events|
  {
    if events != [] {
      StepKeepsArguments(s, events[0], id);
      StepKeepsRound(s, events[0], id, deletions);
      RunKeepsRound(Step(s, events[0]), events[1..], id,
                    deletions + if events[0] == DeleteRow(s.calls[id].account) then 1 else 0);
    }
  }

  /** The error after the loop needs the account's row deleted at least four times while the call runs. */
  lemma RowNotFoundNeedsFourDeletions(s: State, id: nat, account: Id, bundle: Bundle, version: int, events: seq<Event>)
    requires id !in s.calls && 1 <= version <= MAX_VERSION
    requires var t := Run(Step(s, Begin(id, account, bundle, version)), events);
             id in t.calls && t.calls[id].phase == Returned(RowNotFound)
    ensures Deletions(events, account) >= 4
  {
    RunKeepsRound(Step(s, Begin(id, account, bundle, version)), events, id, 0);
  }

  /** The five events of a lost race: the call sees no row, another call inserts one, and the
      call's own INSERT violates the key. */
  function Race(id: nat, rival: nat, account: Id, bundle: Bundle): seq<Event> {
    [Advance(id), Begin(rival, account, bundle, 1), Advance(rival), Advance(rival), Advance(id)]
  }

  /** While the row is deleted before its SELECT and inserted by another before its INSERT, a call
      loses a round each time, and in the fifth it does return the error. */
  lemma LostRaceCostsARound(s: State, id: nat, rival: nat, bundle: Bundle)
    requires id in s.calls && s.calls[id].phase.Selecting? && s.calls[id].version == 1
    requires s.calls[id].account !in s.rows && rival !in s.calls
    ensures var c := s.calls[id];
            var w := Run(s, Race(id, rival, c.account, bundle));
            && id in w.calls
            && w.calls[id] == (if c.round < MAX_ROUNDS then c.(round := c.round + 1) else c.Return(RowNotFound))
            && w.calls.Keys == s.calls.Keys + {rival}
  {
    var events := Race(id, rival, s.calls[id].account, bundle);
    var s1 := Step(s, events[0]);
    var s2 := Step(s1, events[1]);
    var s3 := Step(s2, events[2]);
    var s4 := Step(s3, events[3]);
    assert events[1..][0] == events[1] && events[1..][1..] == events[2..];
    assert events[2..][0] == events[2] && events[2..][1..] == events[3..];
    assert events[3..][0] == events[3] && events[3..][1..] == events[4..];
    assert events[4..][0] == events[4] && events[4..][1..] == [];
    assert Run(s, events) == Run(s1, events[1..]) == Run(s2, events[2..]) == Run(s3, events[3..]) == Run(s4, events[4..]);
    assert Run(s4, events[4..]) == Step(s4, events[4]);
  }

  lemma {:induction false} RunConcat(s: State, a: seq<Event>, b: seq<Event>)
    ensures Run(s, a + b) == Run(Run(s, a), b)
    decreases |a|
  {
    if a == [] {
      assert a + b == b;
    } else {
      assert (a + b)[1..] == a[1..] + b;
      RunConcat(Step(s, a[0]), a[1..], b);
    }
  }

  lemma {:induction false} DeletionsConcat(a: seq<Event>, b: seq<Event>, account: Id)
    ensures Deletions(a + b, account) == Deletions(a, account) + Deletions(b, account)
    decreases |a|
  {
    if a == [] {
      assert a + b == b;
    } else {
      assert (a + b)[1..] == a[1..] + b;
      DeletionsConcat(a[1..], b, account);
    }
  }

  /** A call and as many lost races, the row deleted between any two of them. */
  function Races(account: Id, bundle: Bundle, n: nat): seq<Event> {
    if n == 0 then [Begin(0, account, bundle, 1)]
    else Races(account, bundle, n - 1) + (if n == 1 then [] else [DeleteRow(account)]) + Race(0, n, account, bundle)
  }

  lemma RaceDeletesNothing(id: nat, rival: nat, account: Id, bundle: Bundle)
    ensures Deletions(Race(id, rival, account, bundle), account) == 0
  {
    var e := Race(id, rival, account, bundle);
    assert e[1..][1..] == e[2..] && e[2..][1..] == e[3..] && e[3..][1..] == e[4..] && e[4..][1..] == [];
    assert Deletions(e[4..], account) == 0 && Deletions(e[3..], account) == 0 && Deletions(e[2..], account) == 0;
  }

  lemma {:induction false} RacesRun(account: Id, bundle: Bundle, n: nat)
    requires n <= MAX_ROUNDS
    ensures var s := Run(INIT, Races(account, bundle, n));
            && (forall k: nat :: k in s.calls <==> k <= n)
            && (n == 0 ==> account !in s.rows)
            && s.calls[0] == (if n < MAX_ROUNDS then Call(account, bundle, 1, n + 1, Selecting)
                              else Call(account, bundle, 1, MAX_ROUNDS, Returned(RowNotFound)))
    ensures Deletions(Races(account, bundle, n), account) == if n == 0 then 0 else n - 1
  {
    if n == 0 {
      assert Races(account, bundle, 0)[1..] == [];
      assert Run(INIT, Races(account, bundle, 0)) == Step(INIT, Begin(0, account, bundle, 1));
    } else {
      var races, cleared, race := Races(account, bundle, n - 1), if n == 1 then [] else [DeleteRow(account)], Race(0, n, account, bundle);
      RacesRun(account, bundle, n - 1);
      assert Races(account, bundle, n) == races + cleared + race;
      hide Step, Run, Races, Race, Deletions;
      RunConcat(INIT, races + cleared, race);
      RunConcat(INIT, races, cleared);
      DeletionsConcat(races + cleared, race, account);
      DeletionsConcat(races, cleared, account);
      RaceDeletesNothing(0, n, account, bundle);
      var s := Run(INIT, races);
      ClearedRow(s, account, cleared);
      LostRaceCostsARound(Run(s, cleared), 0, n, bundle);
    }
  }

  lemma ClearedRow(s: State, account: Id, cleared: seq<Event>)
    requires cleared == [DeleteRow(account)] || (cleared == [] && account !in s.rows)
    ensures Run(s, cleared).calls == s.calls && account !in Run(s, cleared).rows
    ensures Deletions(cleared, account) == |cleared|
  {
    if cleared != [] {
      assert cleared[1..] == [];
    }
  }

  /** The bound is tight: a run with exactly four deletions returns the error. */
  lemma FourDeletionsReachTheError(account: Id, bundle: Bundle)
    ensures var events := Races(account, bundle, MAX_ROUNDS);
            && Deletions(events, account) == 4
            && 0 in Run(INIT, events).calls && Run(INIT, events).calls[0].phase == Returned(RowNotFound)
  {
    RacesRun(account, bundle, MAX_ROUNDS);
  }

  // The row at the instant of the answer, in runs with deletions too.

  lemma {:induction false} InsertsAreFirstVersions(s: State, events: seq<Event>, id: nat)
    requires id in s.calls ==> s.calls[id].phase.Inserting? ==> s.calls[id].version == 1
    ensures id in Run(s, events).calls ==> Run(s, events).calls[id].phase.Inserting? ==> Run(s, events).calls[id].version == 1
    decreases |events|
  {
    if events != [] {
      InsertsAreFirstVersions(Step(s, events[0]), events[1..], id);
    }
  }

  /** What the step of an answer finds and leaves: a success leaves the row with exactly the caller's
      bytes and version; a conflict is answered exactly when the row, left as it is, has no room for them. */
  lemma AnswersMatchTheRow(events: seq<Event>, id: nat)
    requires var s := Run(INIT, events); id in s.calls && !s.calls[id].phase.Returned?
    ensures var s := Run(INIT, events);
            var c, w := s.calls[id], Step(s, Advance(id));
            var next := w.calls[id].phase;
            var current := if c.account in s.rows then s.rows[c.account].version else 0;
            && (Succeeded(w.calls[id]) ==> HasRow(w, c.account, c.version, c.bundle))
            && (next.Returned? && next.outcome.Conflict? <==>
                  c.phase.Selecting? && !HasRow(s, c.account, c.version, c.bundle) && c.version != current + 1)
            && (next.Returned? && next.outcome.Conflict? ==>
                  w.rows == s.rows && next.outcome.currentVersion == if c.account in s.rows then Some(current) else None)
  {
    InsertsAreFirstVersions(INIT, events, id);
  }

  /** The outcome says what the step did: a first row, the next version over the row before it, or nothing
      because the row already held the caller's bundle. */
  lemma OutcomesNameTheWrite(events: seq<Event>, id: nat)
    requires var s := Run(INIT, events); id in s.calls && !s.calls[id].phase.Returned?
    ensures var s := Run(INIT, events);
            var c, w := s.calls[id], Step(s, Advance(id));
            var phase, had := w.calls[id].phase, c.account in s.rows;
            var mine := s.rows[c.account := Row(c.bundle, c.version)];
            && (phase == Returned(Created) <==> c.phase.Inserting? && !had)
            && (phase == Returned(Replaced) <==> c.phase.Selecting? && had && s.rows[c.account].version == c.version - 1)
            && (phase == Returned(Idempotent) <==> c.phase.Selecting? && HasRow(s, c.account, c.version, c.bundle))
            && w.rows == (if phase == Returned(Created) || phase == Returned(Replaced) then mine else s.rows)
            && w.commits == (if w.rows == s.rows && !(phase == Returned(Created) || phase == Returned(Replaced)) then s.commits
                             else s.commits + [Commit(c.account, c.version, c.bundle)])
  {
  }

  /** A call begins for any new id and any version that an `i32` holds from 1 on. */
  lemma CallsBegin(events: seq<Event>, id: nat, account: Id, bundle: Bundle, version: int)
    requires id !in Run(INIT, events).calls
    ensures var s := Run(INIT, events);
            Step(s, Begin(id, account, bundle, version))
            == if 1 <= version <= 2_147_483_647 then s.(calls := s.calls[id := Call(account, bundle, version, 1, Selecting)]) else s
  {
  }

  lemma RunSnoc(s: State, events: seq<Event>)
    requires events != []
    ensures Run(s, events) == Step(Run(s, events[..|events| - 1]), events[|events| - 1])
  {
    var front, last := events[..|events| - 1], events[|events| - 1];
    assert events == front + [last];
    RunConcat(s, front, [last]);
    assert [last][1..] == [];
    assert Run(Run(s, front), [last]) == Step(Run(s, front), last);
  }

  /** Over every run, with deletions too, a call that returned success was under way at an instant
      when the row held exactly its bytes and version. */
  lemma {:induction false} SuccessHadTheRow(events: seq<Event>, id: nat) returns (n: nat)
    requires id in Run(INIT, events).calls && Succeeded(Run(INIT, events).calls[id])
    ensures n <= |events|
    ensures var c, held := Run(INIT, events).calls[id], Run(INIT, events[..n]);
            id in held.calls && held.calls[id] == c && HasRow(held, c.account, c.version, c.bundle)
    ensures n > 0 && id in Run(INIT, events[..n - 1]).calls && !Run(INIT, events[..n - 1]).calls[id].phase.Returned?
    decreases |events|
  {
    var front := events[..|events| - 1];
    RunSnoc(INIT, events);
    var s := Run(INIT, front);
    if id in s.calls && Succeeded(s.calls[id]) {
      n := SuccessHadTheRow(front, id);
      assert front[..n] == events[..n] && front[..n - 1] == events[..n - 1];
    } else {
      n := |events|;
      assert events[..n] == events;
      SuccessLeavesTheRow(s, events[|events| - 1], id);
    }
  }

  lemma SuccessLeavesTheRow(s: State, e: Event, id: nat)
    requires !(id in s.calls && Succeeded(s.calls[id])) && id in Step(s, e).calls && Succeeded(Step(s, e).calls[id])
    ensures id in s.calls && !s.calls[id].phase.Returned?
    ensures var w := Step(s, e); HasRow(w, w.calls[id].account, w.calls[id].version, w.calls[id].bundle)
  {
  }
}
