module FillPolicyAnswers {
  // What every step of the fill policy does to the session, the offer and the capabilities, in every reachable state.

  import opened Wrappers
  import opened FillPolicy
  import opened FillPolicyTheorems

  // The session.

  /** More than five minutes have passed since the last trusted activity. */
  predicate Overdue(session: Lifecycle, now: int) {
    session.active && (session.lastActivity.None? || now - session.lastActivity.value > 300_000)
  }

  /** The event is a message that finds the session overdue. */
  predicate FindsOverdue(s: State, e: Event) {
    (e.FromContent? || e.FromPopup?) && Overdue(s.policy.session, e.now)
  }

  /** The event runs a lock: the popup's lock, logout or re-unlock, its closing, a lost authorization of
      the vault, the end of a logout, and the end of a send whose generation is over. */
  predicate Locks(s: State, e: Event) {
    var f := s.policy.features;
    match e
    case FromPopup(LockNow, _) => true
    case FromPopup(Logout, _) => !f.vault || !f.logout
    case FromPopup(Unlock, now) => f.vault && f.unlock && s.policy.session.active && !Overdue(s.policy.session, now)
    case FromPopup(_, _) => false
    case FromContent(_, _) => false
    case PopupClosed => true
    case VaultAuthFailed => true
    case Settle(t, answer) =>
      t in s.tasks &&
      match s.tasks[t]
      case LoggingOut => answer.Done? || answer.Failed?
      case Sending(generation) => (answer.Delivery? || answer.Failed?) && generation != s.policy.session.generation
      case _ => false
  }

  /** The vault manager opened the vault. */
  predicate Unlocks(s: State, e: Event) {
    e.Settle? && e.task in s.tasks && s.tasks[e.task].Unlocking? && e.answer.UnlockResult? && e.answer.ok
  }

  /** The request id an event draws, if it draws one, is a fresh one of 32 characters. */
  predicate DrawsNewId(s: State, e: Event) {
    match e
    case FromPopup(RequestCandidates(id), _) => id !in s.grants && |id| == 32
    case Settle(_, Freshness(_, id, _)) => id !in s.grants && |id| == 32
    case _ => true
  }

  /** How a step moves the session. */
  predicate MovesSession(s: State, e: Event, b: Lifecycle) {
    var a := s.policy.session;
    && b.generation == a.generation + (if FindsOverdue(s, e) then 1 else 0) + (if Locks(s, e) then 1 else 0)
    && (b.active <==> Unlocks(s, e) || (a.active && !FindsOverdue(s, e) && !Locks(s, e)))
    && (b.active ==>
          b.lastActivity
          == if e.FromPopup? then Some(e.now) else if Unlocks(s, e) && !a.active then Some(e.answer.now) else a.lastActivity)
  }

  lemma SettleMovesSession(s: State, t: nat, answer: Answer)
    requires TasksInv(s) && DrawsNewId(s, Settle(t, answer))
    ensures MovesSession(s, Settle(t, answer), Step(s, Settle(t, answer)).policy.session)
  {
  }

  lemma PopupMovesSession(s: State, popup: Popup, now: int)
    requires DrawsNewId(s, FromPopup(popup, now))
    ensures MovesSession(s, FromPopup(popup, now), Step(s, FromPopup(popup, now)).policy.session)
  {
  }

  /** In every run a step ends the session's generation if and only if it finds the session overdue or
      runs a lock, each of which is one generation; the session is then active if and only if it stays so
      or the vault was opened; and only trusted popup messages put the deadline off. */
  lemma SessionMovesExactly(features: Features, events: seq<Event>, e: Event)
    requires DrawsNewId(Run(Init(features), events), e)
    ensures var s := Run(Init(features), events); MovesSession(s, e, Step(s, e).policy.session)
  {
    RunKeepsInv(Init(features), events);
    var s := Run(Init(features), events);
    match e
    case Settle(t, answer) => SettleMovesSession(s, t, answer);
    case FromPopup(popup, now) => PopupMovesSession(s, popup, now);
    case _ =>
  }

  // A lock locks.

  /** The task can release no fill any more. */
  predicate Harmless(s: State, t: nat) {
    && t < s.next
    && (t in s.tasks && (s.tasks[t].AskingTab? || s.tasks[t].FetchingFields?) ==> s.tasks[t].generation < s.policy.session.generation)
  }

  lemma StepKeepsHarmless(s: State, e: Event, t: nat)
    requires Harmless(s, t)
    ensures Harmless(Step(s, e), t)
    ensures e.Settle? && e.task == t ==> Step(s, e).fills == s.fills
  {
    StepFollows(s, e);
  }

  lemma {:induction false} RunKeepsHarmless(s: State, events: seq<Event>, t: nat)
    requires Harmless(s, t)
    ensures Harmless(Run(s, events), t)
    decreases |events|
  {
    if events != [] {
      StepKeepsHarmless(s, events[0], t);
      RunKeepsHarmless(Step(s, events[0]), events[1..], t);
    }
  }

  lemma SettleLocks(s: State, e: Event)
    requires TasksInv(s) && e.Settle? && Locks(s, e)
    ensures var p := Step(s, e).policy;
            !p.session.active && s.policy.session.generation < p.session.generation && p.capabilities == map[] && p.pendingOffer == None
    ensures Step(s, e).next == s.next && Step(s, e).tasks == s.tasks - {e.task} && Step(s, e).fills == s.fills
  {
  }

  lemma MessageLocks(s: State, e: Event)
    requires !e.Settle? && Locks(s, e)
    ensures var p := Step(s, e).policy;
            !p.session.active && s.policy.session.generation < p.session.generation && p.capabilities == map[] && p.pendingOffer == None
    ensures s.next <= Step(s, e).next && (forall t | t in s.tasks && t < s.next :: t in Step(s, e).tasks && Step(s, e).tasks[t] == s.tasks[t])
  {
  }

  /** After every lock the session is inactive in a later generation, with no capability and no offer. */
  lemma LocksLock(features: Features, events: seq<Event>, e: Event)
    requires Locks(Run(Init(features), events), e)
    ensures var a, p := Run(Init(features), events).policy, Step(Run(Init(features), events), e).policy;
            !p.session.active && a.session.generation < p.session.generation && p.capabilities == map[] && p.pendingOffer == None
  {
    RunKeepsInv(Init(features), events);
    if e.Settle? {
      SettleLocks(Run(Init(features), events), e);
    } else {
      MessageLocks(Run(Init(features), events), e);
    }
  }

  /** And no task that was under way before releases a fill, however long the run goes on. */
  lemma LocksStopEveryTask(features: Features, events: seq<Event>, e: Event, after: seq<Event>, t: nat, answer: Answer)
    requires Locks(Run(Init(features), events), e) && t in Run(Init(features), events).tasks
    ensures var s := Run(Step(Run(Init(features), events), e), after);
            Step(s, Settle(t, answer)).fills == s.fills
  {
    RunKeepsInv(Init(features), events);
    var s := Run(Init(features), events);
    if e.Settle? {
      SettleLocks(s, e);
    } else {
      MessageLocks(s, e);
    }
    assert TaskIsActive(s.policy.session, s.tasks[t]);
    RunKeepsHarmless(Step(s, e), after, t);
    StepKeepsHarmless(Run(Step(s, e), after), Settle(t, answer), t);
  }

  // The offer.

  /** The content request is answered with an offer, or would be for a known document. */
  predicate Allows(s: State, e: Event) {
    && e.FromContent? && e.message.Request?
    && s.policy.session.active && !FindsOverdue(s, e)
    && s.policy.features.vault && e.message.pageMatches && e.message.decision.Some?
  }

  function ActionOf(m: Content): Origin
    requires m.Request?
  {
    if m.formAction.Some? then m.formAction.value else m.origin
  }

  /** The offer after a step. */
  function OfferAfter(s: State, e: Event): Option<Offer> {
    var pending := s.policy.pendingOffer;
    if Locks(s, e) then None
    else
      match e
      case FromContent(CancelOffer(tabId), _) => if pending.Some? && pending.value.tabId == tabId then None else pending
      case FromContent(Request(tabId, origin, documentId, _, _, decision), _) =>
        if !Allows(s, e) then pending
        else if documentId.None? then None
        else Some(Offer(s.policy.offersMade, tabId, origin, documentId.value, ActionOf(e.message), decision.value))
      case Settle(t, answer) =>
        if t in s.tasks && s.tasks[t].Sending? && (answer.Delivery? || answer.Failed?) then None else pending
      case _ => pending
  }

  lemma MessageMovesOffer(s: State, e: Event)
    requires !e.Settle? && DrawsNewId(s, e)
    ensures Step(s, e).policy.pendingOffer == OfferAfter(s, e)
  {
  }

  lemma SettleMovesOffer(s: State, e: Event)
    requires TasksInv(s) && e.Settle? && DrawsNewId(s, e)
    ensures Step(s, e).policy.pendingOffer == OfferAfter(s, e)
  {
  }

  /** In every run an offer is made, replaced, withdrawn or kept exactly so. */
  lemma OfferMovesExactly(features: Features, events: seq<Event>, e: Event)
    requires DrawsNewId(Run(Init(features), events), e)
    ensures var s := Run(Init(features), events); Step(s, e).policy.pendingOffer == OfferAfter(s, e)
  {
    RunKeepsInv(Init(features), events);
    if e.Settle? {
      SettleMovesOffer(Run(Init(features), events), e);
    } else {
      MessageMovesOffer(Run(Init(features), events), e);
    }
  }

  /** And every offer, and nothing else, is recorded as asked for. */
  lemma AskedExactly(features: Features, events: seq<Event>, e: Event)
    ensures var s := Run(Init(features), events);
            var w := Step(s, e);
            if Allows(s, e) && e.message.documentId.Some? then
              var m := e.message;
              && w.policy.offersMade == s.policy.offersMade + 1
              && w.asked == s.asked[s.policy.offersMade := Asked(
                   s.policy.session.generation, m.tabId, m.documentId.value, m.origin, ActionOf(m), m.decision.value)]
            else w.policy.offersMade == s.policy.offersMade && w.asked == s.asked
  {
    AsksExactly(Run(Init(features), events), e);
  }

  lemma AsksExactly(s: State, e: Event)
    ensures var w := Step(s, e);
            if Allows(s, e) && e.message.documentId.Some? then
              var m := e.message;
              && w.policy.offersMade == s.policy.offersMade + 1
              && w.asked == s.asked[s.policy.offersMade := Asked(
                   s.policy.session.generation, m.tabId, m.documentId.value, m.origin, ActionOf(m), m.decision.value)]
            else w.policy.offersMade == s.policy.offersMade && w.asked == s.asked
  {
    if e.Settle? && e.task in s.tasks {
      AdvanceMakesNoOffer(s.policy, s.tasks[e.task], e.answer);
      hide Advance;
    } else if e.FromPopup? {
      hide Advance;
    }
  }

  lemma AdvanceMakesNoOffer(p: Policy, task: Task, answer: Answer)
    ensures Advance(p, task, answer).policy.offersMade == p.offersMade
  {
  }

  // Capabilities.

  /** The id a step grants a capability under, and when: the candidates are requested for a pending offer
      in an active session, and the vault manager either cannot check its freshness or found it fresh. */
  function GrantOf(s: State, e: Event): Option<(Id, int)> {
    var p := s.policy;
    match e
    case FromPopup(RequestCandidates(id), now) =>
      if p.session.active && !FindsOverdue(s, e) && p.features.vault && p.pendingOffer.Some? && !p.features.checkFresh then Some((id, now))
      else None
    case Settle(t, Freshness(isFresh, id, now)) =>
      if t in s.tasks && s.tasks[t].CheckingFresh? && isFresh && p.session.active && p.pendingOffer == Some(s.tasks[t].offer) then Some((id, now))
      else None
    case _ => None
  }

  /** The id a step spends: a selected fill learns the active tab in its own, active generation. */
  function SpendOf(s: State, e: Event): Option<Id> {
    if e.Settle? && e.answer.ActiveTab? && e.task in s.tasks && s.tasks[e.task].AskingTab?
       && s.policy.session.active && s.policy.session.generation == s.tasks[e.task].generation
    then Some(s.tasks[e.task].requestId) else None
  }

  function CapabilitiesAfter(s: State, e: Event): map<Id, Capability> {
    if Locks(s, e) then map[]
    else if GrantOf(s, e).Some? && s.policy.pendingOffer.Some? then
      var o := s.policy.pendingOffer.value;
      s.policy.capabilities[GrantOf(s, e).value.0 := Capability(
        Binding(s.policy.session.generation, o.tabId, o.documentId, o.origin, o.formActionOrigin), GrantOf(s, e).value.1)]
    else if SpendOf(s, e).Some? then s.policy.capabilities - {SpendOf(s, e).value}
    else s.policy.capabilities
  }

  lemma MessageMovesCapabilities(s: State, e: Event)
    requires !e.Settle? && DrawsNewId(s, e)
    ensures Step(s, e).policy.capabilities == CapabilitiesAfter(s, e)
  {
  }

  lemma SettleMovesCapabilities(s: State, e: Event)
    requires TasksInv(s) && GrantsInv(s) && e.Settle? && DrawsNewId(s, e)
    ensures Step(s, e).policy.capabilities == CapabilitiesAfter(s, e)
  {
    if e.task in s.tasks {
      if s.tasks[e.task].AskingTab? && e.answer.ActiveTab? {
        TabSpends(s, e);
      } else if s.tasks[e.task].CheckingFresh? && e.answer.Freshness? {
        FreshnessGrants(s, e);
      }
    }
  }

  lemma TabSpends(s: State, e: Event)
    requires TasksInv(s) && GrantsInv(s) && e.Settle? && e.task in s.tasks && s.tasks[e.task].AskingTab? && e.answer.ActiveTab?
    ensures Step(s, e).policy.capabilities == CapabilitiesAfter(s, e)
  {
  }

  lemma FreshnessGrants(s: State, e: Event)
    requires TasksInv(s) && e.Settle? && e.task in s.tasks && s.tasks[e.task].CheckingFresh? && e.answer.Freshness? && DrawsNewId(s, e)
    ensures Step(s, e).policy.capabilities == CapabilitiesAfter(s, e)
  {
  }

  /** In every run capabilities are granted, spent and dropped exactly so. */
  lemma CapabilitiesMoveExactly(features: Features, events: seq<Event>, e: Event)
    requires DrawsNewId(Run(Init(features), events), e)
    ensures var s := Run(Init(features), events); Step(s, e).policy.capabilities == CapabilitiesAfter(s, e)
  {
    RunKeepsInv(Init(features), events);
    if e.Settle? {
      SettleMovesCapabilities(Run(Init(features), events), e);
    } else {
      MessageMovesCapabilities(Run(Init(features), events), e);
    }
  }

  /** `consume` accepts exactly a capability that is known, at most 30 s old and bound as it is used; a
      refusal names the first of these that fails. */
  lemma ConsumeAnswers(capabilities: map<Id, Capability>, id: Id, current: Binding, now: int)
    ensures var answer := Consume(capabilities, id, current, now);
            if id !in capabilities || !(0 < |id| <= 128) then answer == Unknown
            else
              var c := capabilities[id];
              && (answer == Accepted <==> now - c.grantedAt <= 30_000 && c.binding == current)
              && (answer == Expired <==> now - c.grantedAt > 30_000)
              && (answer == GenerationChanged ==> c.binding.generation != current.generation)
              && (answer == TabChanged ==> c.binding.generation == current.generation && c.binding.tabId != current.tabId)
              && (answer == DocumentChanged ==>
                    c.binding.generation == current.generation && c.binding.tabId == current.tabId && c.binding.documentId != current.documentId)
              && (answer == OriginChanged ==> c.binding.documentId == current.documentId && c.binding.origin != current.origin)
              && (answer == FormActionChanged ==> c.binding == current.(formActionOrigin := c.binding.formActionOrigin) && c.binding != current)
              && answer != Unknown
  {
  }

  // What a call does in the end, when nothing comes between its segments.

  /** A selection releases its fill if and only if the session is active, the item is a candidate of the
      pending offer, the active tab is the offer's, and the capability is known, at most 30 s old and was
      granted for this offer in this generation. */
  lemma SelectionFillsIff(
    features: Features, events: seq<Event>, requestId: Id, itemId: Id, now: int, tab: Option<(int, Origin)>, later: int)
    ensures var s := Run(Init(features), events);
            var p := s.policy;
            var asked := Step(Step(s, FromPopup(FillSelected(requestId, itemId), now)), Settle(s.next, ActiveTab(tab, later)));
            var end := Step(asked, Settle(s.next, Fields(true)));
            var releases :=
              && p.session.active && !Overdue(p.session, now) && features.vault
              && p.pendingOffer.Some? && itemId in p.pendingOffer.value.candidates
              && tab == Some((p.pendingOffer.value.tabId, p.pendingOffer.value.origin))
              && requestId in p.capabilities && later - p.capabilities[requestId].grantedAt <= 30_000
              && p.capabilities[requestId].binding == p.pendingOffer.value.Bind(p.session.generation);
            if releases then
              var o := p.pendingOffer.value;
              end.fills == s.fills + [Fill(
                requestId, itemId, o.serial, o.tabId, o.documentId, o.origin, o.formActionOrigin, p.session.generation, later)]
            else end.fills == s.fills
  {
    RunKeepsInv(Init(features), events);
    RunKeepsFeatures(Init(features), events);
    var s := Run(Init(features), events);
    SelectionOf(s, requestId, itemId, now);
    var selected := Step(s, FromPopup(FillSelected(requestId, itemId), now));
    hide Run;
    if s.next in selected.tasks {
      AskedTab(selected, s.next, tab, later);
    }
  }

  lemma {:induction false} RunKeepsFeatures(s: State, events: seq<Event>)
    ensures Run(s, events).policy.features == s.policy.features
    decreases |events|
  {
    if events != [] {
      StepKeepsFeatures(s, events[0]);
      RunKeepsFeatures(Step(s, events[0]), events[1..]);
    }
  }

  lemma StepKeepsFeatures(s: State, e: Event)
    ensures Step(s, e).policy.features == s.policy.features
  {
  }

  /** The selection starts a fill, or refuses and leaves no task. */
  lemma SelectionOf(s: State, requestId: Id, itemId: Id, now: int)
    requires TasksInv(s)
    ensures var p := s.policy;
            var w := Step(s, FromPopup(FillSelected(requestId, itemId), now));
            && w.fills == s.fills && w.next == s.next + 1
            && (if p.session.active && !Overdue(p.session, now) && p.features.vault && p.pendingOffer.Some?
                   && itemId in p.pendingOffer.value.candidates
                then w.policy == p.(session := p.session.(lastActivity := Some(now)))
                     && w.tasks == s.tasks[s.next := AskingTab(requestId, itemId, p.pendingOffer.value, p.session.generation)]
                else s.next !in w.tasks)
  {
  }

  /** The rest of a selected fill, in an active session of its generation. */
  lemma AskedTab(s: State, t: nat, tab: Option<(int, Origin)>, later: int)
    requires GrantsInv(s) && t < s.next && t in s.tasks && s.tasks[t].AskingTab?
    requires s.policy.session.active && s.policy.session.generation == s.tasks[t].generation
    ensures var x := s.tasks[t];
            var end := Step(Step(s, Settle(t, ActiveTab(tab, later))), Settle(t, Fields(true)));
            if tab == Some((x.offer.tabId, x.offer.origin)) && x.requestId in s.policy.capabilities
               && later - s.policy.capabilities[x.requestId].grantedAt <= 30_000
               && s.policy.capabilities[x.requestId].binding == x.offer.Bind(x.generation)
            then end.fills == s.fills + [Fill(x.requestId, x.itemId, x.offer.serial, x.offer.tabId, x.offer.documentId, x.offer.origin,
                                              x.offer.formActionOrigin, x.generation, later)]
            else end.fills == s.fills
  {
  }

  /** A logout locks whether or not the vault manager's own logout succeeds. */
  lemma LogoutLocks(features: Features, events: seq<Event>, now: int, answer: Answer)
    requires answer.Done? || answer.Failed?
    ensures var s := Run(Init(features), events);
            var p := Step(Step(s, FromPopup(Logout, now)), Settle(s.next, answer)).policy;
            !p.session.active && s.policy.session.generation < p.session.generation && p.capabilities == map[] && p.pendingOffer == None
  {
    RunKeepsInv(Init(features), events);
    var s := Run(Init(features), events);
    LogoutStarts(s, now);
    var started := Step(s, FromPopup(Logout, now));
    hide Run, Step;
    if s.next in started.tasks {
      StepKeepsInv(s, FromPopup(Logout, now));
      SettleLocks(started, Settle(s.next, answer));
    } else {
      SettlesNothing(started, s.next, answer);
    }
  }

  lemma SettlesNothing(s: State, t: nat, answer: Answer)
    requires t !in s.tasks
    ensures Step(s, Settle(t, answer)) == s
  {
  }

  /** A logout awaits the vault manager, or has locked already. */
  lemma LogoutStarts(s: State, now: int)
    requires TasksInv(s)
    ensures var w := Step(s, FromPopup(Logout, now));
            var p := w.policy;
            && s.policy.session.generation <= p.session.generation
            && (if s.next in w.tasks then w.tasks[s.next] == LoggingOut && Locks(w, Settle(s.next, Done)) && Locks(w, Settle(s.next, Failed))
                else !p.session.active && s.policy.session.generation < p.session.generation && p.capabilities == map[] && p.pendingOffer == None)
  {
  }

  /** An unlock that succeeds leaves an active session of a later generation without capabilities or
      offer if the session was active; otherwise it activates the generation the message found. */
  lemma UnlockActivates(features: Features, events: seq<Event>, now: int, later: int)
    requires features.vault && features.unlock
    ensures var s := Run(Init(features), events);
            var p := Step(Step(s, FromPopup(Unlock, now)), Settle(s.next, UnlockResult(true, later))).policy;
            && p.session.active && p.session.lastActivity == Some(later)
            && p.session.generation == s.policy.session.generation + (if s.policy.session.active then 1 else 0)
            && (s.policy.session.active && !Overdue(s.policy.session, now) ==> p.capabilities == map[] && p.pendingOffer == None)
  {
    RunKeepsInv(Init(features), events);
    RunKeepsFeatures(Init(features), events);
    var s := Run(Init(features), events);
    hide Run;
    assert s.next !in s.tasks;
  }

  /** A request for candidates whose offer the vault manager finds fresh is granted. */
  lemma FreshRequestIsGranted(features: Features, events: seq<Event>, unused: Id, now: int, id: Id, later: int)
    requires features.vault && features.checkFresh && |id| == 32 && id !in Run(Init(features), events).grants
    requires var p := Run(Init(features), events).policy; p.session.active && !Overdue(p.session, now) && p.pendingOffer.Some?
    ensures var s := Run(Init(features), events);
            var p := Step(Step(s, FromPopup(RequestCandidates(unused), now)), Settle(s.next, Freshness(true, id, later))).policy;
            id in p.capabilities
            && p.capabilities[id] == Capability(s.policy.pendingOffer.value.Bind(s.policy.session.generation), later)
  {
    RunKeepsInv(Init(features), events);
    RunKeepsFeatures(Init(features), events);
    var s := Run(Init(features), events);
    hide Run;
    assert s.next !in s.tasks;
    var w := Step(s, FromPopup(RequestCandidates(unused), now));
    assert w.tasks[s.next] == CheckingFresh(s.policy.pendingOffer.value) && w.grants == s.grants;
  }

  /** A released fill awaits its delivery, and then ends its offer, delivered or not. */
  lemma FillsEndTheirOffer(features: Features, events: seq<Event>, e: Event, delivery: Answer)
    requires delivery.Delivery? || delivery.Failed?
    requires Step(Run(Init(features), events), e).fills != Run(Init(features), events).fills
    ensures var s := Run(Init(features), events);
            var w := Step(s, e);
            && e.Settle? && e.task in w.tasks && w.tasks[e.task] == Sending(s.policy.session.generation)
            && Step(w, Settle(e.task, delivery)).policy.pendingOffer == None
            && e.task !in Step(w, Settle(e.task, delivery)).tasks
  {
    RunKeepsInv(Init(features), events);
    ReleaseSends(Run(Init(features), events), e);
    var w := Step(Run(Init(features), events), e);
    hide Run;
    SendEnds(w, e.task, delivery);
  }

  lemma ReleaseSends(s: State, e: Event)
    requires TasksInv(s) && Step(s, e).fills != s.fills
    ensures e.Settle? && e.task in Step(s, e).tasks && Step(s, e).tasks[e.task] == Sending(s.policy.session.generation)
    ensures e.task < Step(s, e).next
  {
  }

  lemma SendEnds(w: State, t: nat, delivery: Answer)
    requires t in w.tasks && w.tasks[t].Sending? && t < w.next && (delivery.Delivery? || delivery.Failed?)
    ensures Step(w, Settle(t, delivery)).policy.pendingOffer == None && t !in Step(w, Settle(t, delivery)).tasks
  {
  }

  /** Any other awaited call that fails ends its task and changes nothing. */
  lemma FailuresEnd(features: Features, events: seq<Event>, t: nat)
    requires var s := Run(Init(features), events); t in s.tasks && !s.tasks[t].Sending? && !s.tasks[t].LoggingOut?
    ensures var s := Run(Init(features), events);
            Step(s, Settle(t, Failed)) == s.(tasks := s.tasks - {t})
  {
    RunKeepsInv(Init(features), events);
  }

  /** Every lock records why: the popup's closing, the deadline, or an explicit lock. */
  lemma LocksNameTheirReason(features: Features, events: seq<Event>, e: Event)
    requires DrawsNewId(Run(Init(features), events), e)
    ensures var s := Run(Init(features), events);
            Step(s, e).policy.session.lastLock
            == if Locks(s, e) then (if e == Event.PopupClosed then LockReason.PopupClosed else Explicit)
               else if FindsOverdue(s, e) then Timeout
               else s.policy.session.lastLock
  {
    RunKeepsInv(Init(features), events);
    if e.Settle? {
      SettleNamesReason(Run(Init(features), events), e);
    }
  }

  lemma SettleNamesReason(s: State, e: Event)
    requires TasksInv(s) && e.Settle? && DrawsNewId(s, e)
    ensures Step(s, e).policy.session.lastLock == if Locks(s, e) then Explicit else s.policy.session.lastLock
  {
  }
}
