/** Lineages of sessions over every run. */
module SessionTheorems {
  import opened Wrappers
  import opened SessionTables

  // What every reachable state satisfies.

  /** A rotated session is revoked, and its one successor carries on its account and its token. */
  ghost predicate PredecessorsInv(s: State) {
    forall id | id in s.predecessor ::
      && id in s.tables.sessions
      && s.predecessor[id] in s.tables.sessions
      && s.tables.sessions[s.predecessor[id]].revokedAt.Some?
      && s.tables.sessions[id].account == s.tables.sessions[s.predecessor[id]].account
      && s.tables.sessions[id].issuedVia.Refresh?
  }

  ghost predicate OneSuccessor(s: State) {
    forall a, b | a in s.predecessor && b in s.predecessor && s.predecessor[a] == s.predecessor[b] :: a == b
  }

  /** Logins are the roots; everything else was rotated from something. */
  ghost predicate RootsInv(s: State) {
    forall id | id in s.tables.sessions :: s.tables.sessions[id].issuedVia.Refresh? <==> id in s.predecessor
  }

  ghost predicate TokensInv(s: State) {
    && (forall hash | hash in s.tables.tokens ::
          s.tables.tokens[hash] in s.tables.sessions && s.tables.sessions[s.tables.tokens[hash]].tokenHash == hash)
    && (forall id | id in s.tables.sessions ::
          s.tables.sessions[id].tokenHash in s.tables.tokens && s.tables.tokens[s.tables.sessions[id].tokenHash] == id)
  }

  ghost predicate Inv(s: State) {
    PredecessorsInv(s) && OneSuccessor(s) && RootsInv(s) && TokensInv(s)
  }

  /** What later states keep: identities stay, revocation is for ever, successors are only
      added, and only to sessions that were not revoked. */
  ghost predicate Extends(s: State, t: State) {
    && (forall id | id in s.tables.sessions ::
          && id in t.tables.sessions
          && t.tables.sessions[id].account == s.tables.sessions[id].account
          && t.tables.sessions[id].tokenHash == s.tables.sessions[id].tokenHash
          && t.tables.sessions[id].issuedVia == s.tables.sessions[id].issuedVia
          && (s.tables.sessions[id].revokedAt.Some? ==> t.tables.sessions[id].revokedAt.Some?)
          && (s.tables.sessions[id].device.Some? ==> t.tables.sessions[id].device.Some?))
    && (forall id | id in s.predecessor :: id in t.predecessor && t.predecessor[id] == s.predecessor[id])
    && (forall id | id in t.predecessor && id !in s.predecessor ::
          && id !in s.tables.sessions
          && (t.predecessor[id] in s.tables.sessions ==> s.tables.sessions[t.predecessor[id]].revokedAt.None?))
  }

  /** No session appears or disappears, identities stay, and revocations stay. */
  ghost predicate Quiet(t: Tables, u: Tables) {
    && u.tokens == t.tokens && u.sessions.Keys == t.sessions.Keys
    && (forall id | id in t.sessions ::
          && u.sessions[id].account == t.sessions[id].account
          && u.sessions[id].tokenHash == t.sessions[id].tokenHash
          && u.sessions[id].issuedVia == t.sessions[id].issuedVia
          && (t.sessions[id].revokedAt.Some? ==> u.sessions[id].revokedAt.Some?)
          && (t.sessions[id].device.Some? ==> u.sessions[id].device.Some?))
  }

  lemma StepIsQuiet(s: State, e: Event)
    requires !e.Login? && !e.Refreshing?
    ensures Quiet(s.tables, Step(s, e).tables) && Step(s, e).predecessor == s.predecessor
  {
    if e.LogoutEverywhere? || e.DeviceRevocation? {
      RevocationsAreQuiet(s, e);
      hide Quiet;
    } else if e.EnrollBearer? {
      EnrolmentIsQuiet(s, e.id, e.device, e.now);
      hide Quiet;
    }
  }

  lemma EnrolmentIsQuiet(s: State, id: Id, device: Id, now: Time)
    ensures Quiet(s.tables, Step(s, EnrollBearer(id, device, now)).tables)
  {
  }

  lemma RevocationsAreQuiet(s: State, e: Event)
    requires e.LogoutEverywhere? || e.DeviceRevocation?
    ensures Quiet(s.tables, Step(s, e).tables)
  {
    var t, u := s.tables, Step(s, e).tables;
    assert u.sessions.Keys == t.sessions.Keys;
  }

  lemma QuietKeepsInv(s: State, w: State)
    requires Inv(s) && Quiet(s.tables, w.tables) && w.predecessor == s.predecessor
    ensures Inv(w) && Extends(s, w)
  {
  }

  lemma LoginKeepsInv(s: State, account: Id, id: Id, hash: Hash, expiresAt: Time)
    requires Inv(s) && IsFresh(s.tables, id, hash)
    ensures Inv(Step(s, Login(account, id, hash, expiresAt)))
  {
  }

  lemma LoginExtends(s: State, account: Id, id: Id, hash: Hash, expiresAt: Time)
    requires IsFresh(s.tables, id, hash)
    ensures Extends(s, Step(s, Login(account, id, hash, expiresAt)))
  {
  }

  lemma RotationKeepsPredecessors(s: State, id: Id, next: Id, hash: Hash, now: Time, expiresAt: Time)
    requires Inv(s) && IsFresh(s.tables, next, hash) && MayRotate(s.tables, id, now)
    ensures PredecessorsInv(Step(s, Refreshing(id, next, hash, now, expiresAt)))
  {
    hide RootsInv, TokensInv, OneSuccessor;
  }

  lemma RotationKeepsOneSuccessor(s: State, id: Id, next: Id, hash: Hash, now: Time, expiresAt: Time)
    requires Inv(s) && IsFresh(s.tables, next, hash) && MayRotate(s.tables, id, now)
    ensures OneSuccessor(Step(s, Refreshing(id, next, hash, now, expiresAt)))
  {
    hide RootsInv, TokensInv;
    LiveIsLast(s, id);
  }

  lemma RotationKeepsTokens(s: State, id: Id, next: Id, hash: Hash, now: Time, expiresAt: Time)
    requires Inv(s) && IsFresh(s.tables, next, hash) && MayRotate(s.tables, id, now)
    ensures TokensInv(Step(s, Refreshing(id, next, hash, now, expiresAt)))
  {
    hide OneSuccessor, PredecessorsInv, RootsInv;
  }

  lemma RotationKeepsRoots(s: State, id: Id, next: Id, hash: Hash, now: Time, expiresAt: Time)
    requires Inv(s) && IsFresh(s.tables, next, hash) && MayRotate(s.tables, id, now)
    ensures RootsInv(Step(s, Refreshing(id, next, hash, now, expiresAt)))
  {
    hide OneSuccessor, TokensInv;
  }

  lemma RotationExtends(s: State, id: Id, next: Id, hash: Hash, now: Time, expiresAt: Time)
    requires Inv(s) && IsFresh(s.tables, next, hash) && MayRotate(s.tables, id, now)
    ensures Extends(s, Step(s, Refreshing(id, next, hash, now, expiresAt)))
  {
    hide RootsInv, TokensInv, OneSuccessor;
  }

  lemma StepKeepsInv(s: State, e: Event)
    requires Inv(s)
    ensures Inv(Step(s, e)) && Extends(s, Step(s, e))
  {
    match e {
      case Login(account, id, hash, expiresAt) =>
        if Enabled(s, e) {
          LoginKeepsInv(s, account, id, hash, expiresAt);
          LoginExtends(s, account, id, hash, expiresAt);
        }
      case Refreshing(id, next, hash, now, expiresAt) =>
        if Enabled(s, e) && MayRotate(s.tables, id, now) {
          RotationKeepsPredecessors(s, id, next, hash, now, expiresAt);
          RotationKeepsOneSuccessor(s, id, next, hash, now, expiresAt);
          RotationKeepsTokens(s, id, next, hash, now, expiresAt);
          RotationKeepsRoots(s, id, next, hash, now, expiresAt);
          RotationExtends(s, id, next, hash, now, expiresAt);
        }
      case _ =>
        StepIsQuiet(s, e);
        QuietKeepsInv(s, Step(s, e));
    }
  }

  lemma ExtendsIsTransitive(s: State, t: State, u: State)
    requires Extends(s, t) && Extends(t, u)
    ensures Extends(s, u)
  {
  }

  lemma {:induction false} RunExtends(s: State, events: seq<Event>)
    requires Inv(s)
    ensures Inv(Run(s, events)) && Extends(s, Run(s, events))
    decreases |events|
  {
    if events != [] {
      var next := Step(s, events[0]);
      StepKeepsInv(s, events[0]);
      RunExtends(next, events[1..]);
      ExtendsIsTransitive(s, next, Run(next, events[1..]));
    }
  }

  // Lineages.

  /** `id` comes from `root` by `n` rotations. */
  predicate Descends(s: State, root: Id, id: Id, n: nat)
    decreases n
  {
    if n == 0 then id == root else id in s.predecessor && Descends(s, root, s.predecessor[id], n - 1)
  }

  /** At each depth a lineage has one session. */
  lemma {:induction false} OneAtEachDepth(s: State, root: Id, a: Id, b: Id, n: nat)
    requires Inv(s) && Descends(s, root, a, n) && Descends(s, root, b, n)
    ensures a == b
    decreases n
  {
    if n > 0 {
      OneAtEachDepth(s, root, s.predecessor[a], s.predecessor[b], n - 1);
    }
  }

  /** Whatever lies below a session in its lineage comes through it, so it is revoked. */
  lemma {:induction false} ShallowerIsRevoked(s: State, root: Id, a: Id, b: Id, n: nat, m: nat)
    requires Inv(s) && Descends(s, root, a, n) && Descends(s, root, b, m) && n < m
    ensures a in s.tables.sessions && s.tables.sessions[a].revokedAt.Some?
    ensures Descends(s, a, b, m - n)
    decreases m
  {
    var up := s.predecessor[b];
    if n == m - 1 {
      OneAtEachDepth(s, root, a, up, n);
      assert Descends(s, a, up, 0);
    } else {
      ShallowerIsRevoked(s, root, a, up, n, m - 1);
    }
  }

  /** In every run the sessions that descend from one login form a chain: of any two the
      one is an ancestor of the other, and is revoked. At most one of them is live. */
  lemma LineagesAreChains(events: seq<Event>, root: Id, a: Id, b: Id, n: nat, m: nat)
    requires var s := Run(INIT, events); Descends(s, root, a, n) && Descends(s, root, b, m) && a != b
    ensures var s := Run(INIT, events);
            || (n < m && Descends(s, a, b, m - n) && a in s.tables.sessions && !s.tables.sessions[a].Live())
            || (m < n && Descends(s, b, a, n - m) && b in s.tables.sessions && !s.tables.sessions[b].Live())
  {
    RunExtends(INIT, events);
    var s := Run(INIT, events);
    if n == m {
      OneAtEachDepth(s, root, a, b, n);
    } else if n < m {
      ShallowerIsRevoked(s, root, a, b, n, m);
    } else {
      ShallowerIsRevoked(s, root, b, a, m, n);
    }
  }

  /** Every session that was ever issued descends from a login of its own account. */
  lemma {:induction false} SessionsDescendFromLogins(events: seq<Event>, id: Id) returns (root: Id, n: nat)
    requires id in Run(INIT, events).tables.sessions
    ensures var s := Run(INIT, events);
            && root in s.tables.sessions && s.tables.sessions[root].issuedVia.OpaqueLogin?
            && s.tables.sessions[root].account == s.tables.sessions[id].account
            && Descends(s, root, id, n)
    decreases |events|
  {
    RunExtends(INIT, events);
    if Run(INIT, events).tables.sessions[id].issuedVia.OpaqueLogin? {
      root, n := id, 0;
    } else {
      var before, e := events[..|events| - 1], events[|events| - 1];
      RunSnoc(INIT, events);
      RunExtends(INIT, before);
      var s := Run(INIT, before);
      StepKeepsInv(s, e);
      if id in s.tables.sessions {
        root, n := SessionsDescendFromLogins(before, id);
        DescentIsStable(s, Step(s, e), root, id, n);
      } else {
        RotationHasPredecessor(s, e, id);
        var up := Step(s, e).predecessor[id];
        root, n := SessionsDescendFromLogins(before, up);
        DescentIsStable(s, Step(s, e), root, up, n);
        n := n + 1;
      }
    }
  }

  lemma RotationHasPredecessor(s: State, e: Event, id: Id)
    requires id !in s.tables.sessions && id in Step(s, e).tables.sessions && Step(s, e).tables.sessions[id].issuedVia.Refresh?
    ensures id in Step(s, e).predecessor && Step(s, e).predecessor[id] in s.tables.sessions
  {
    if !e.Login? && !e.Refreshing? {
      StepIsQuiet(s, e);
    }
  }

  lemma {:induction false} RunSnoc(s: State, events: seq<Event>)
    requires events != []
    ensures Run(s, events) == Step(Run(s, events[..|events| - 1]), events[|events| - 1])
    decreases |events|
  {
    if |events| > 1 {
      assert events[..|events| - 1][1..] == events[1..][..|events| - 2];
      RunSnoc(Step(s, events[0]), events[1..]);
    } else {
      assert events[1..] == [];
      assert events[..|events| - 1] == [];
    }
  }

  lemma {:induction false} DescentIsStable(s: State, t: State, root: Id, id: Id, n: nat)
    requires Extends(s, t) && Descends(s, root, id, n)
    ensures Descends(t, root, id, n)
    decreases n
  {
    if n > 0 {
      DescentIsStable(s, t, root, s.predecessor[id], n - 1);
    }
  }

  // Revoking a device.

  /** A revoked session never resolves again and never gains a successor. */
  lemma RevokedForEver(s: State, events: seq<Event>, id: Id, now: Time)
    requires Inv(s) && id in s.tables.sessions && s.tables.sessions[id].revokedAt.Some?
    ensures var t := Run(s, events);
            && Resolve(t.tables, s.tables.sessions[id].tokenHash, now) == None
            && (forall next | next in t.predecessor && t.predecessor[next] == id :: next in s.predecessor)
  {
    RunExtends(s, events);
  }

  /** When a device revocation commits, every session bound to the device is dead for ever. */
  lemma BoundSessionsDie(before: seq<Event>, account: Id, device: Id, now: Time, after: seq<Event>, id: Id, later: Time)
    requires var s := Run(INIT, before);
             && MayRevokeDevice(s.tables, account, device)
             && id in s.tables.sessions && s.tables.sessions[id].device == Some(device)
    ensures var s := Run(INIT, before);
            var t := Run(Step(s, DeviceRevocation(account, device, now)), after);
            && Resolve(t.tables, s.tables.sessions[id].tokenHash, later) == None
            && (forall next | next in t.predecessor && t.predecessor[next] == id :: next in s.predecessor)
  {
    RunExtends(INIT, before);
    RevocationReaches(Run(INIT, before), account, device, now, id);
    hide Step, Resolve;
    RevokedForEver(Step(Run(INIT, before), DeviceRevocation(account, device, now)), after, id, later);
  }

  lemma RevocationReaches(s: State, account: Id, device: Id, now: Time, id: Id)
    requires Inv(s) && MayRevokeDevice(s.tables, account, device)
    requires id in s.tables.sessions && s.tables.sessions[id].device == Some(device)
    ensures var w := Step(s, DeviceRevocation(account, device, now));
            && Inv(w) && id in w.tables.sessions && w.tables.sessions[id].revokedAt.Some?
            && w.tables.sessions[id].tokenHash == s.tables.sessions[id].tokenHash && w.predecessor == s.predecessor
  {
    StepKeepsInv(s, DeviceRevocation(account, device, now));
  }

  ghost predicate IsLast(s: State, id: Id) {
    forall next | next in s.predecessor :: s.predecessor[next] != id
  }

  /** Nothing is ever issued below the revoked last session of a lineage. */
  lemma {:induction false} NothingBelow(s: State, t: State, root: Id, last: Id, n: nat, id: Id, m: nat)
    requires Inv(t) && Extends(s, t) && Descends(t, root, last, n)
    requires last in s.tables.sessions && s.tables.sessions[last].revokedAt.Some? && IsLast(s, last)
    requires Descends(t, root, id, m)
    ensures m <= n
    decreases m
  {
    hide Inv, Extends, IsLast;
    if m > n {
      var up := t.predecessor[id];
      NothingBelow(s, t, root, last, n, up, m - 1);
      OneAtEachDepth(t, root, up, last, n);
      NoNewSuccessor(s, t, last, id);
    }
  }

  /** A lineage whose last session is revoked never has a live session again. */
  lemma DeadLineage(s: State, t: State, root: Id, last: Id, n: nat, id: Id, m: nat)
    requires Inv(t) && Extends(s, t) && Descends(t, root, last, n)
    requires last in s.tables.sessions && s.tables.sessions[last].revokedAt.Some? && IsLast(s, last)
    requires Descends(t, root, id, m)
    ensures id in t.tables.sessions && t.tables.sessions[id].revokedAt.Some?
  {
    hide Inv, Extends, IsLast, Descends;
    NothingBelow(s, t, root, last, n, id, m);
    if m == n {
      OneAtEachDepth(t, root, id, last, n);
      StaysRevoked(s, t, last);
    } else {
      ShallowerIsRevoked(t, root, id, last, m, n);
    }
  }

  lemma StaysRevoked(s: State, t: State, id: Id)
    requires Extends(s, t) && id in s.tables.sessions && s.tables.sessions[id].revokedAt.Some?
    ensures id in t.tables.sessions && t.tables.sessions[id].revokedAt.Some?
  {
  }

  lemma NoNewSuccessor(s: State, t: State, last: Id, id: Id)
    requires Extends(s, t) && last in s.tables.sessions && s.tables.sessions[last].revokedAt.Some?
    requires IsLast(s, last)
    ensures !(id in t.predecessor && t.predecessor[id] == last)
  {
  }

  /** Revoking the device of a lineage's live session ends the lineage: whatever is issued
      later, no session that descends from the same login is ever live again. */
  lemma DeviceRevocationEndsLineage(
    before: seq<Event>, account: Id, device: Id, now: Time, after: seq<Event>, root: Id, last: Id, n: nat, id: Id, m: nat)
    requires var s := Run(INIT, before);
             && MayRevokeDevice(s.tables, account, device)
             && last in s.tables.sessions && s.tables.sessions[last].Live() && s.tables.sessions[last].device == Some(device)
             && Descends(s, root, last, n)
    requires Descends(Run(Step(Run(INIT, before), DeviceRevocation(account, device, now)), after), root, id, m)
    ensures var t := Run(Step(Run(INIT, before), DeviceRevocation(account, device, now)), after);
            id in t.tables.sessions && !t.tables.sessions[id].Live()
  {
    RunExtends(INIT, before);
    RevocationKillsLast(Run(INIT, before), account, device, now, last);
    var revoked := Step(Run(INIT, before), DeviceRevocation(account, device, now));
    hide Inv, Extends, IsLast, Step;
    RunExtends(revoked, after);
    DescentIsStable(Run(INIT, before), revoked, root, last, n);
    DescentIsStable(revoked, Run(revoked, after), root, last, n);
    DeadLineage(revoked, Run(revoked, after), root, last, n, id, m);
  }

  lemma RevocationKillsLast(s: State, account: Id, device: Id, now: Time, last: Id)
    requires Inv(s) && MayRevokeDevice(s.tables, account, device)
    requires last in s.tables.sessions && s.tables.sessions[last].Live() && s.tables.sessions[last].device == Some(device)
    ensures var w := Step(s, DeviceRevocation(account, device, now));
            && Inv(w) && Extends(s, w) && IsLast(w, last)
            && last in w.tables.sessions && w.tables.sessions[last].revokedAt.Some?
  {
    StepKeepsInv(s, DeviceRevocation(account, device, now));
    LiveIsLast(s, last);
  }

  lemma LiveIsLast(s: State, last: Id)
    requires Inv(s) && last in s.tables.sessions && s.tables.sessions[last].Live()
    ensures IsLast(s, last)
  {
  }

  /** A bearer enrolment consumes its session's right to enrol: no later one succeeds. */
  lemma EnrolsOnce(s: State, id: Id, device: Id, now: Time, after: seq<Event>, later: Time)
    requires Inv(s) && device !in s.tables.devices && MayEnroll(s.tables, id, now)
    ensures !MayEnroll(Run(Step(s, EnrollBearer(id, device, now)), after).tables, id, later)
  {
    var bound := Step(s, EnrollBearer(id, device, now));
    StepKeepsInv(s, EnrollBearer(id, device, now));
    RunExtends(bound, after);
  }

  // What a revocation does not reach.

  /** Bound devices exist. */
  ghost predicate DevicesInv(s: State) {
    && (forall id | id in s.tables.sessions && s.tables.sessions[id].device.Some? :: s.tables.sessions[id].device.value in s.tables.devices)
    && (forall pair | pair in s.unbound :: pair.1 in s.tables.devices)
  }

  /** Devices stay, and stay revoked. */
  ghost predicate DevicesExtend(t: Tables, u: Tables) {
    forall id | id in t.devices :: id in u.devices && (t.devices[id].revokedAt.Some? ==> u.devices[id].revokedAt.Some?)
  }

  lemma StepKeepsDevices(s: State, e: Event)
    requires DevicesInv(s)
    ensures DevicesInv(Step(s, e)) && DevicesExtend(s.tables, Step(s, e).tables)
  {
  }

  lemma {:induction false} RunKeepsDevices(s: State, events: seq<Event>)
    requires DevicesInv(s)
    ensures DevicesInv(Run(s, events)) && DevicesExtend(s.tables, Run(s, events).tables)
    decreases |events|
  {
    if events != [] {
      StepKeepsDevices(s, events[0]);
      RunKeepsDevices(Step(s, events[0]), events[1..]);
    }
  }

  /** The last device that a run binds the session to after a legacy enrolment. */
  function LastBinding(s: State, events: seq<Event>, id: Id): Option<Id>
    decreases |events|
  {
    if events == [] then None
    else
      var later := LastBinding(Step(s, events[0]), events[1..], id);
      if later.Some? then later
      else if events[0].BindLegacy? && events[0].id == id && (id, events[0].device) in s.unbound then Some(events[0].device)
      else None
  }

  /** A bound session's device changes by nothing else. */
  lemma StepBinds(s: State, e: Event, id: Id)
    requires id in s.tables.sessions && s.tables.sessions[id].device.Some?
    ensures id in Step(s, e).tables.sessions
    ensures Step(s, e).tables.sessions[id].device
         == if e.BindLegacy? && e.id == id && (id, e.device) in s.unbound then Some(e.device) else s.tables.sessions[id].device
  {
  }

  lemma {:induction false} RunBinds(s: State, events: seq<Event>, id: Id)
    requires id in s.tables.sessions && s.tables.sessions[id].device.Some?
    ensures id in Run(s, events).tables.sessions
    ensures var last := LastBinding(s, events, id);
            Run(s, events).tables.sessions[id].device == if last.Some? then last else s.tables.sessions[id].device
    decreases |events|
  {
    if events != [] {
      StepBinds(s, events[0], id);
      RunBinds(Step(s, events[0]), events[1..], id);
    }
  }

  /** A session bound to a revoked device resolves again if and only if it is still unrevoked and
      unexpired and the last legacy enrolment that was bound to it since gave it a device that is
      not revoked. */
  lemma ResolvesAgainIff(before: seq<Event>, id: Id, after: seq<Event>, now: Time)
    requires var t := Run(INIT, before).tables;
             && id in t.sessions && t.sessions[id].device.Some?
             && t.sessions[id].device.value in t.devices && t.devices[t.sessions[id].device.value].revokedAt.Some?
    ensures var s := Run(INIT, before);
            var t := Run(s, after).tables;
            var last := LastBinding(s, after, id);
            && id in t.sessions
            && (Resolve(t, s.tables.sessions[id].tokenHash, now).Some?
                <==> t.sessions[id].Live() && now < t.sessions[id].expiresAt && last.Some? && t.UnrevokedDevice(last.value))
  {
    RunExtends(INIT, before);
    RunKeepsDevices(INIT, before);
    var s := Run(INIT, before);
    RunExtends(s, after);
    RunKeepsDevices(s, after);
    RunBinds(s, after, id);
  }

  lemma RunThen(s: State, events: seq<Event>, e: Event)
    ensures Run(s, events + [e]) == Step(Run(s, events), e)
  {
    assert (events + [e])[..|events + [e]| - 1] == events;
    RunSnoc(s, events + [e]);
  }

  /** One session enrols two legacy devices at once; the first is revoked before it is bound. */
  function LateBinding(account: Id, id: Id, hash: Hash, expiresAt: Time, first: Id, second: Id, now: Time): seq<Event> {
    [Login(account, id, hash, expiresAt)] + [Authenticate(id, now)] + [Authenticate(id, now)]
    + [CreateLegacy(id, first)] + [CreateLegacy(id, second)] + [DeviceRevocation(account, first, now)] + [BindLegacy(id, first)]
  }

  /** The session is then refused but not revoked, and binding the second device makes its token
      resolve again. */
  lemma LateBindingOutlivesRevocation(account: Id, id: Id, hash: Hash, expiresAt: Time, first: Id, second: Id, now: Time)
    requires first != second && now < expiresAt
    ensures var events := LateBinding(account, id, hash, expiresAt, first, second, now);
            var bound := Run(INIT, events).tables;
            && id in bound.sessions && bound.sessions[id].Live() && bound.sessions[id].device == Some(first)
            && first in bound.devices && bound.devices[first].revokedAt.Some?
            && Resolve(bound, hash, now) == None
            && Resolve(Run(INIT, events + [BindLegacy(id, second)]).tables, hash, now)
               == Some(AuthSession(id, account, Some(second), OpaqueLogin))
  {
    var e1 := [Login(account, id, hash, expiresAt)];
    var e2 := e1 + [Authenticate(id, now)];
    var e3 := e2 + [Authenticate(id, now)];
    var e4 := e3 + [CreateLegacy(id, first)];
    var e5 := e4 + [CreateLegacy(id, second)];
    var e6 := e5 + [DeviceRevocation(account, first, now)];
    RunThen(INIT, [], Login(account, id, hash, expiresAt));
    RunThen(INIT, e1, Authenticate(id, now));
    RunThen(INIT, e2, Authenticate(id, now));
    RunThen(INIT, e3, CreateLegacy(id, first));
    RunThen(INIT, e4, CreateLegacy(id, second));
    RunThen(INIT, e5, DeviceRevocation(account, first, now));
    RunThen(INIT, e6, BindLegacy(id, first));
    RunThen(INIT, e6 + [BindLegacy(id, first)], BindLegacy(id, second));
    assert [] + e1 == e1;
    hide Run, Step, Resolve;
    TwoEnrolments(account, id, hash, expiresAt, first, second, now);
    RevokesUnbound(Run(INIT, e5), id, account, first, now);
    BindsTwice(Run(INIT, e6), account, id, hash, first, second, now);
  }

  /** A login and two legacy enrolments, up to the creation of their devices. */
  lemma TwoEnrolments(account: Id, id: Id, hash: Hash, expiresAt: Time, first: Id, second: Id, now: Time)
    requires first != second && now < expiresAt
    ensures var session := Session(account, hash, expiresAt, None, OpaqueLogin, None);
            Step(Step(Step(Step(Step(INIT, Login(account, id, hash, expiresAt)), Authenticate(id, now)), Authenticate(id, now)),
                      CreateLegacy(id, first)), CreateLegacy(id, second))
            == State(Tables(map[id := session], map[first := Device(account, None), second := Device(account, None)], map[hash := id]),
                     map[], multiset{}, {(id, first), (id, second)})
  {
    var session := Session(account, hash, expiresAt, None, OpaqueLogin, None);
    var tables := Tables(map[id := session], map[], map[hash := id]);
    var s1 := Step(INIT, Login(account, id, hash, expiresAt));
    assert s1 == State(tables, map[], multiset{}, {});
    var s3 := Step(Step(s1, Authenticate(id, now)), Authenticate(id, now));
    assert s3 == State(tables, map[], multiset{id, id}, {});
    CreatesTwo(s3, account, id, first, second);
  }

  lemma CreatesTwo(s: State, account: Id, id: Id, first: Id, second: Id)
    requires id in s.tables.sessions && s.tables.sessions[id].account == account && s.tables.devices == map[]
    requires s.authenticated == multiset{id, id} && s.unbound == {} && first != second
    ensures Step(Step(s, CreateLegacy(id, first)), CreateLegacy(id, second))
         == s.(tables := s.tables.(devices := map[first := Device(account, None), second := Device(account, None)]),
               authenticated := multiset{}, unbound := {(id, first), (id, second)})
  {
    var s1 := Step(s, CreateLegacy(id, first));
    assert s1 == s.(tables := s.tables.(devices := map[first := Device(account, None)]),
                    authenticated := multiset{id}, unbound := {(id, first)});
  }

  /** Binding the session first to a revoked device, then to another. */
  lemma BindsTwice(s: State, account: Id, id: Id, hash: Hash, first: Id, second: Id, now: Time)
    requires id in s.tables.sessions && hash in s.tables.tokens && s.tables.tokens[hash] == id
    requires var x := s.tables.sessions[id]; x.Live() && now < x.expiresAt && x.account == account && x.issuedVia == OpaqueLogin
    requires s.unbound == {(id, first), (id, second)} && first != second
    requires first in s.tables.devices && s.tables.devices[first].revokedAt.Some? && s.tables.UnrevokedDevice(second)
    ensures var bound := Step(s, BindLegacy(id, first));
            && id in bound.tables.sessions && bound.tables.sessions[id].Live() && bound.tables.sessions[id].device == Some(first)
            && bound.tables.devices == s.tables.devices
            && Resolve(bound.tables, hash, now) == None
            && Resolve(Step(bound, BindLegacy(id, second)).tables, hash, now) == Some(AuthSession(id, account, Some(second), OpaqueLogin))
  {
  }

  lemma RevokesUnbound(s: State, id: Id, account: Id, device: Id, now: Time)
    requires id in s.tables.sessions && s.tables.sessions[id].device.None? && MayRevokeDevice(s.tables, account, device)
    ensures var w := Step(s, DeviceRevocation(account, device, now));
            && w.unbound == s.unbound && w.tables.tokens == s.tables.tokens
            && id in w.tables.sessions && w.tables.sessions[id] == s.tables.sessions[id]
            && w.tables.devices == s.tables.devices[device := Device(account, Some(now))]
  {
  }

  /** Exactly the unrevoked, unexpired sessions of this token resolve, unless their device is revoked. */
  lemma ResolvesIff(events: seq<Event>, id: Id, now: Time)
    requires id in Run(INIT, events).tables.sessions
    ensures var t := Run(INIT, events).tables;
            var x := t.sessions[id];
            Resolve(t, x.tokenHash, now) == Some(AuthSession(id, x.account, x.device, x.issuedVia))
            <==> x.Live() && now < x.expiresAt
                 && !(x.device.Some? && x.device.value in t.devices && t.devices[x.device.value].revokedAt.Some?)
  {
    RunExtends(INIT, events);
  }
}
