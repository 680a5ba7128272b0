/** What each transaction makes of the answer to each token, in every reachable state. */
module SessionAnswers {
  import opened Wrappers
  import opened SessionTables
  import opened SessionTheorems

  /** The token of a session that is in the tables resolves at that time. */
  predicate Answers(t: Tables, id: Id, now: Time) {
    id in t.sessions && Resolve(t, t.sessions[id].tokenHash, now).Some?
  }

  /** Expiry times never change. */
  lemma {:induction false} RunKeepsExpiry(s: State, events: seq<Event>, id: Id)
    requires Inv(s) && id in s.tables.sessions
    ensures id in Run(s, events).tables.sessions
    ensures Run(s, events).tables.sessions[id].expiresAt == s.tables.sessions[id].expiresAt
    decreases |events|
  {
    if events != [] {
      StepKeepsInv(s, events[0]);
      StepKeepsExpiry(s, events[0], id);
      RunKeepsExpiry(Step(s, events[0]), events[1..], id);
    }
  }

  lemma StepKeepsExpiry(s: State, e: Event, id: Id)
    requires id in s.tables.sessions && id in Step(s, e).tables.sessions
    ensures Step(s, e).tables.sessions[id].expiresAt == s.tables.sessions[id].expiresAt
  {
  }

  lemma ReachableInv(events: seq<Event>)
    ensures Inv(Run(INIT, events)) && DevicesInv(Run(INIT, events))
  {
    RunExtends(INIT, events);
    RunKeepsDevices(INIT, events);
  }

  /** A token is answered with the one session whose token it is, or not at all. */
  lemma AnswersAreTheTokens(events: seq<Event>, hash: Hash, now: Time)
    ensures var t := Run(INIT, events).tables;
            Resolve(t, hash, now).Some? ==>
              var id := Resolve(t, hash, now).value.sessionId;
              && id in t.sessions && t.sessions[id].tokenHash == hash && t.sessions[id].Live() && now < t.sessions[id].expiresAt
              && Resolve(t, hash, now).value == AuthSession(id, t.sessions[id].account, t.sessions[id].device, t.sessions[id].issuedVia)
              && (forall other | other in t.sessions && t.sessions[other].tokenHash == hash :: other == id)
  {
    ReachableInv(events);
  }

  // Logging in.

  /** A fresh login resolves to its account, without a device, at exactly the times before its expiry. */
  lemma LoginResolves(events: seq<Event>, account: Id, id: Id, hash: Hash, expiresAt: Time, later: Time)
    requires IsFresh(Run(INIT, events).tables, id, hash)
    ensures Resolve(Step(Run(INIT, events), Login(account, id, hash, expiresAt)).tables, hash, later)
         == if later < expiresAt then Some(AuthSession(id, account, None, OpaqueLogin)) else None
  {
  }

  // Rotating.

  /** A refresh issues a successor if and only if the session's token resolves at that time with a
      device, which is then registered; otherwise nothing changes. */
  lemma RotatesIff(events: seq<Event>, id: Id, next: Id, hash: Hash, now: Time, expiresAt: Time)
    requires IsFresh(Run(INIT, events).tables, next, hash)
    ensures var s := Run(INIT, events);
            var w := Step(s, Refreshing(id, next, hash, now, expiresAt));
            var issues := Answers(s.tables, id, now) && s.tables.sessions[id].device.Some?;
            && (next in w.tables.sessions <==> issues)
            && (MayRotate(s.tables, id, now) <==> issues)
            && (issues ==> s.tables.sessions[id].device.value in s.tables.devices)
            && (!issues ==> w == s)
  {
    ReachableInv(events);
  }

  /** The successor's token resolves to the account, the device and `Refresh` at exactly the times
      before the given expiry. */
  lemma SuccessorResolves(events: seq<Event>, id: Id, next: Id, hash: Hash, now: Time, expiresAt: Time, later: Time)
    requires IsFresh(Run(INIT, events).tables, next, hash)
    requires Answers(Run(INIT, events).tables, id, now) && Run(INIT, events).tables.sessions[id].device.Some?
    ensures var x := Run(INIT, events).tables.sessions[id];
            var w := Step(Run(INIT, events), Refreshing(id, next, hash, now, expiresAt)).tables;
            && Resolve(w, hash, later) == (if later < expiresAt then Some(AuthSession(next, x.account, x.device, Provenance.Refresh)) else None)
            && Resolve(w, x.tokenHash, later) == None
  {
    ReachableInv(events);
  }

  /** Over every continuation it does so while it is not revoked and the device it was last bound to is
      not; the old token resolves at no time. */
  lemma SuccessorLives(
    events: seq<Event>, id: Id, next: Id, hash: Hash, now: Time, expiresAt: Time, after: seq<Event>, later: Time)
    requires IsFresh(Run(INIT, events).tables, next, hash)
    requires Answers(Run(INIT, events).tables, id, now) && Run(INIT, events).tables.sessions[id].device.Some?
    ensures var x := Run(INIT, events).tables.sessions[id];
            var w := Step(Run(INIT, events), Refreshing(id, next, hash, now, expiresAt));
            var t, last := Run(w, after).tables, LastBinding(w, after, next);
            var device := if last.Some? then last else x.device;
            && next in t.sessions
            && Resolve(t, hash, later)
               == (if t.sessions[next].Live() && t.UnrevokedDevice(device.value) && later < expiresAt
                   then Some(AuthSession(next, x.account, device, Provenance.Refresh)) else None)
            && Resolve(t, x.tokenHash, later) == None
  {
    ReachableInv(events);
    var s := Run(INIT, events);
    var w := Step(s, Refreshing(id, next, hash, now, expiresAt));
    RotationIssues(s, id, next, hash, now, expiresAt);
    StepKeepsInv(s, Refreshing(id, next, hash, now, expiresAt));
    StepKeepsDevices(s, Refreshing(id, next, hash, now, expiresAt));
    hide Step, MayRotate;
    RevokedForEver(w, after, id, later);
    RunExtends(w, after);
    RunKeepsDevices(w, after);
    RunKeepsExpiry(w, after, next);
    RunBinds(w, after, next);
  }

  lemma RotationIssues(s: State, id: Id, next: Id, hash: Hash, now: Time, expiresAt: Time)
    requires Inv(s) && DevicesInv(s) && IsFresh(s.tables, next, hash)
    requires Answers(s.tables, id, now) && s.tables.sessions[id].device.Some?
    ensures var x := s.tables.sessions[id];
            var w := Step(s, Refreshing(id, next, hash, now, expiresAt)).tables;
            && next in w.sessions && w.sessions[next] == Session(x.account, hash, expiresAt, None, Provenance.Refresh, x.device)
            && id in w.sessions && w.sessions[id] == x.(revokedAt := Some(now))
  {
  }

  // Enrolling.

  /** A bearer enrolment succeeds if and only if the token resolves to a login without a device; it then
      registers the device for the account, and the token resolves with it. Otherwise nothing changes. */
  lemma EnrolsIff(events: seq<Event>, id: Id, device: Id, now: Time, later: Time)
    requires device !in Run(INIT, events).tables.devices
    ensures var s := Run(INIT, events);
            var w := Step(s, EnrollBearer(id, device, now));
            if id in s.tables.sessions
               && Resolve(s.tables, s.tables.sessions[id].tokenHash, now) == Some(AuthSession(id, s.tables.sessions[id].account, None, OpaqueLogin))
            then var x := s.tables.sessions[id];
                 && MayEnroll(s.tables, id, now)
                 && w.tables.devices == s.tables.devices[device := Device(x.account, None)]
                 && Resolve(w.tables, x.tokenHash, later)
                    == if later < x.expiresAt then Some(AuthSession(id, x.account, Some(device), OpaqueLogin)) else None
            else !MayEnroll(s.tables, id, now) && w == s
  {
    ReachableInv(events);
  }

  /** Only a token that resolves authenticates a legacy enrolment. */
  lemma OnlyResolvingTokensAuthenticate(events: seq<Event>, id: Id, now: Time)
    ensures var s := Run(INIT, events);
            Step(s, Authenticate(id, now))
            == if Answers(s.tables, id, now) then s.(authenticated := s.authenticated + multiset{id}) else s
  {
  }

  /** Each authenticated request creates one device, and each created device is bound once. */
  lemma LegacyEnrolmentProceeds(events: seq<Event>, id: Id, device: Id)
    ensures var s := Run(INIT, events);
            var created, bound := Step(s, CreateLegacy(id, device)), Step(s, BindLegacy(id, device));
            && (id in s.authenticated && id in s.tables.sessions && device !in s.tables.devices ==>
                  created.authenticated == s.authenticated - multiset{id} && created.unbound == s.unbound + {(id, device)})
            && ((id, device) in s.unbound ==> bound.unbound == s.unbound - {(id, device)} && bound.authenticated == s.authenticated)
  {
  }

  /** A legacy enrolment registers its device for the session's account, and binding it makes the token
      resolve with it exactly while session and device are unrevoked. */
  lemma LegacyEnrols(events: seq<Event>, id: Id, device: Id, later: Time)
    ensures var s := Run(INIT, events);
            && (Enabled(s, CreateLegacy(id, device)) ==>
                  Step(s, CreateLegacy(id, device)).tables
                  == s.tables.(devices := s.tables.devices[device := Device(s.tables.sessions[id].account, None)]))
            && (Enabled(s, BindLegacy(id, device)) && id in s.tables.sessions ==>
                  var x := s.tables.sessions[id];
                  Resolve(Step(s, BindLegacy(id, device)).tables, x.tokenHash, later)
                  == if x.Live() && s.tables.UnrevokedDevice(device) && later < x.expiresAt
                     then Some(AuthSession(id, x.account, Some(device), x.issuedVia)) else None)
  {
    ReachableInv(events);
  }

  // Ending.

  /** The event revokes the session, if it is not revoked yet. */
  predicate Revokes(t: Tables, e: Event, id: Id) {
    id in t.sessions &&
    match e
    case Logout(x, _) => x == id
    case LogoutEverywhere(account, _) => t.sessions[id].account == account
    case DeviceRevocation(account, device, _) =>
      && t.sessions[id].device == Some(device)
      && device in t.devices && t.devices[device].account == account && t.devices[device].revokedAt.None?
    case Refreshing(x, _, _, now, _) => x == id && Answers(t, id, now) && t.sessions[id].device.Some?
    case _ => false
  }

  function TimeOf(e: Event): Time {
    match e
    case Logout(_, now) => now
    case LogoutEverywhere(_, now) => now
    case DeviceRevocation(_, _, now) => now
    case Refreshing(_, _, _, now, _) => now
    case _ => 0
  }

  /** A step revokes exactly those sessions, at its time. A time already written stays, except that a
      logout writes it again. */
  lemma RevokesExactly(events: seq<Event>, e: Event, id: Id)
    requires id in Run(INIT, events).tables.sessions && Enabled(Run(INIT, events), e)
    ensures var t, w := Run(INIT, events).tables, Step(Run(INIT, events), e).tables;
            && id in w.sessions
            && w.sessions[id].revokedAt
               == if Revokes(t, e, id) && (t.sessions[id].Live() || e.Logout?) then Some(TimeOf(e)) else t.sessions[id].revokedAt
  {
    ReachableInv(events);
    StepKeepsInv(Run(INIT, events), e);
    RevokesOf(Run(INIT, events), e, id);
  }

  lemma RevokesOf(s: State, e: Event, id: Id)
    requires Inv(s) && DevicesInv(s) && id in s.tables.sessions && Enabled(s, e)
    ensures var t, w := s.tables, Step(s, e).tables;
            && id in w.sessions
            && w.sessions[id].revokedAt
               == if Revokes(t, e, id) && (t.sessions[id].Live() || e.Logout?) then Some(TimeOf(e)) else t.sessions[id].revokedAt
  {
    hide PredecessorsInv, OneSuccessor, RootsInv;
  }

  /** Whatever a step revokes never resolves again. */
  lemma RevokedNeverResolves(events: seq<Event>, e: Event, id: Id, after: seq<Event>, later: Time)
    requires Enabled(Run(INIT, events), e) && Revokes(Run(INIT, events).tables, e, id)
    ensures Resolve(Run(Step(Run(INIT, events), e), after).tables, Run(INIT, events).tables.sessions[id].tokenHash, later) == None
  {
    ReachableInv(events);
    StepKeepsInv(Run(INIT, events), e);
    RevokesExactly(events, e, id);
    RevokedForEver(Step(Run(INIT, events), e), after, id, later);
  }

  /** A device revocation marks exactly the caller's unrevoked device. */
  lemma RevokesDeviceExactly(events: seq<Event>, account: Id, device: Id, now: Time)
    ensures var t, w := Run(INIT, events).tables, Step(Run(INIT, events), DeviceRevocation(account, device, now)).tables;
            var revokes := device in t.devices && t.devices[device].account == account && t.devices[device].revokedAt.None?;
            && (MayRevokeDevice(t, account, device) <==> revokes)
            && w.devices == if revokes then t.devices[device := Device(account, Some(now))] else t.devices
  {
  }

  /** The event is about the session. */
  predicate IsAbout(t: Tables, e: Event, id: Id) {
    || Revokes(t, e, id)
    || (e.EnrollBearer? && e.id == id)
    || (e.BindLegacy? && e.id == id)
  }

  /** Every other session's token is answered as before, at every time. */
  lemma OthersResolveAlike(events: seq<Event>, e: Event, id: Id, later: Time)
    requires id in Run(INIT, events).tables.sessions && !IsAbout(Run(INIT, events).tables, e, id)
    ensures var t := Run(INIT, events).tables;
            Resolve(Step(Run(INIT, events), e).tables, t.sessions[id].tokenHash, later) == Resolve(t, t.sessions[id].tokenHash, later)
  {
    ReachableInv(events);
    var s := Run(INIT, events);
    if Enabled(s, e) {
      StepKeepsInv(s, e);
      UntouchedSession(s, e, id);
    }
  }

  /** What a step leaves of a session that it is not about: its row, its token and its device's row. */
  predicate Untouched(t: Tables, w: Tables, id: Id)
    requires id in t.sessions
  {
    var x := t.sessions[id];
    && id in w.sessions && w.sessions[id] == x
    && x.tokenHash in w.tokens && w.tokens[x.tokenHash] == id
    && (x.device.Some? ==>
          x.device.value in t.devices && x.device.value in w.devices && w.devices[x.device.value] == t.devices[x.device.value])
  }

  lemma UntouchedSession(s: State, e: Event, id: Id)
    requires Inv(s) && DevicesInv(s) && id in s.tables.sessions && !IsAbout(s.tables, e, id) && Enabled(s, e)
    ensures Untouched(s.tables, Step(s, e).tables, id)
  {
    if e.Login? || e.Refreshing? {
      UntouchedByIssuing(s, e, id);
    } else if e.LogoutEverywhere? || e.DeviceRevocation? {
      UntouchedByRevoking(s, e, id);
    } else {
      UntouchedByBinding(s, e, id);
    }
  }

  lemma UntouchedByIssuing(s: State, e: Event, id: Id)
    requires Inv(s) && DevicesInv(s) && id in s.tables.sessions && !IsAbout(s.tables, e, id) && Enabled(s, e)
    requires e.Login? || e.Refreshing?
    ensures Untouched(s.tables, Step(s, e).tables, id)
  {
    hide PredecessorsInv, OneSuccessor, RootsInv;
  }

  lemma UntouchedByRevoking(s: State, e: Event, id: Id)
    requires Inv(s) && DevicesInv(s) && id in s.tables.sessions && !IsAbout(s.tables, e, id)
    requires e.LogoutEverywhere? || e.DeviceRevocation?
    ensures Untouched(s.tables, Step(s, e).tables, id)
  {
    hide PredecessorsInv, OneSuccessor, RootsInv;
  }

  lemma UntouchedByBinding(s: State, e: Event, id: Id)
    requires Inv(s) && DevicesInv(s) && id in s.tables.sessions && !IsAbout(s.tables, e, id) && Enabled(s, e)
    requires !e.Login? && !e.Refreshing? && !e.LogoutEverywhere? && !e.DeviceRevocation?
    ensures Untouched(s.tables, Step(s, e).tables, id)
  {
    hide PredecessorsInv, OneSuccessor, RootsInv;
  }
}
