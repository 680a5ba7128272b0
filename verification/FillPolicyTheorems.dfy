/** One fill per grant, and no lock in between, over every interleaving. */
module FillPolicyTheorems {
  import opened Wrappers
  import opened FillPolicy

  /** The grant of this id authorizes a fill of this offer, in this generation, at this time. */
  predicate Authorizes(grants: map<Id, Capability>, requestId: Id, binding: Binding, consumedAt: int) {
    && requestId in grants
    && grants[requestId].binding == binding
    && consumedAt - grants[requestId].grantedAt <= MAX_CAPABILITY_LIFETIME_MS
  }

  function BindingOf(f: Fill): Binding {
    Binding(f.generation, f.tabId, f.documentId, f.origin, f.formActionOrigin)
  }

  predicate IsConsumed(tasks: map<nat, Task>, t: nat) {
    t in tasks && tasks[t].FetchingFields?
  }

  ghost predicate GrantsInv(s: State) {
    forall id | id in s.policy.capabilities ::
      id in s.grants && s.grants[id] == s.policy.capabilities[id] && WellFormedId(id)
  }

  ghost predicate ConsumedInv(s: State) {
    forall t | IsConsumed(s.tasks, t) ::
      var task := s.tasks[t];
      && task.requestId !in s.policy.capabilities
      && Authorizes(s.grants, task.requestId, task.offer.Bind(task.generation), task.consumedAt)
      && task.itemId in task.offer.candidates
  }

  ghost predicate ConsumedOnce(s: State) {
    forall t, u | IsConsumed(s.tasks, t) && IsConsumed(s.tasks, u) && t != u :: s.tasks[t].requestId != s.tasks[u].requestId
  }

  ghost predicate FillsInv(s: State) {
    forall k | 0 <= k < |s.fills| ::
      && s.fills[k].requestId !in s.policy.capabilities
      && Authorizes(s.grants, s.fills[k].requestId, BindingOf(s.fills[k]), s.fills[k].consumedAt)
  }

  ghost predicate FilledOnce(s: State) {
    forall j, k | 0 <= j < k < |s.fills| :: s.fills[j].requestId != s.fills[k].requestId
  }

  ghost predicate FilledIsNotPending(s: State) {
    forall t, k | IsConsumed(s.tasks, t) && 0 <= k < |s.fills| :: s.tasks[t].requestId != s.fills[k].requestId
  }

  /** A fill in progress was selected in an active generation; if that is still the
      current one, it is still active. */
  predicate TaskIsActive(session: Lifecycle, task: Task) {
    task.AskingTab? || task.FetchingFields? ==>
      task.generation <= session.generation && (task.generation == session.generation ==> session.active)
  }

  predicate AsksForCandidate(task: Task) {
    task.AskingTab? ==> task.itemId in task.offer.candidates
  }

  ghost predicate TasksInv(s: State) {
    forall t | t in s.tasks :: t < s.next && TaskIsActive(s.policy.session, s.tasks[t]) && AsksForCandidate(s.tasks[t])
  }

  ghost predicate Inv(s: State) {
    GrantsInv(s) && ConsumedInv(s) && ConsumedOnce(s) && FillsInv(s) && FilledOnce(s) && FilledIsNotPending(s) && TasksInv(s)
  }

  // The lifecycle.

  /** Generations never go back, and a generation that has been active stays active while it is current. */
  predicate Follows(a: Lifecycle, b: Lifecycle) {
    a.generation <= b.generation && (a.generation == b.generation && a.active ==> b.active)
  }

  lemma AdvanceFollows(p: Policy, task: Task, answer: Answer)
    ensures Follows(p.session, Advance(p, task, answer).policy.session)
  {
  }

  lemma StepFollows(s: State, event: Event)
    ensures Follows(s.policy.session, Step(s, event).policy.session)
  {
    if event.Settle? && event.task in s.tasks {
      AdvanceFollows(s.policy, s.tasks[event.task], event.answer);
    }
  }

  /** Over every run. */
  lemma {:induction false} ActiveGenerationStaysActive(s: State, events: seq<Event>)
    ensures Follows(s.policy.session, Run(s, events).policy.session)
    decreases |events|
  {
    if events != [] {
      StepFollows(s, events[0]);
      ActiveGenerationStaysActive(Step(s, events[0]), events[1..]);
    }
  }

  // Every step keeps the invariant.

  /** What a segment does to capabilities: only a grant adds one. */
  predicate CapabilitiesFollow(before: map<Id, Capability>, after: map<Id, Capability>, effect: Effect) {
    forall id | id in after ::
      || (id in before && before[id] == after[id])
      || (effect.Granted? && effect.requestId == id && effect.capability == after[id])
  }

  lemma PolicyStepKeeps(s: State, w: State)
    requires Inv(s) && w == s.(policy := w.policy, asked := w.asked)
    requires CapabilitiesFollow(s.policy.capabilities, w.policy.capabilities, NoEffect)
    requires Follows(s.policy.session, w.policy.session)
    ensures Inv(w)
  {
  }

  /** What a segment leaves to do. */
  predicate NextIsSound(s: State, o: Outcome) {
    && (o.next.Some? && o.next.value.FetchingFields? ==>
          var task := o.next.value;
          && task.requestId in s.policy.capabilities && task.requestId !in o.policy.capabilities
          && Authorizes(s.grants, task.requestId, task.offer.Bind(task.generation), task.consumedAt)
          && task.itemId in task.offer.candidates)
    && (o.next.Some? ==> TaskIsActive(o.policy.session, o.next.value) && AsksForCandidate(o.next.value))
  }

  /** A segment that releases nothing. */
  ghost predicate IsQuiet(s: State, task: nat, o: Outcome) {
    && (task in s.tasks || task == s.next) && task <= s.next
    && !o.effect.Released? && DrawsFresh(s, o.effect)
    && CapabilitiesFollow(s.policy.capabilities, o.policy.capabilities, o.effect)
    && Follows(s.policy.session, o.policy.session) && NextIsSound(s, o)
  }

  lemma OtherTasksStay(s: State, task: nat, o: Outcome, t: nat)
    requires IsQuiet(s, task, o) && IsConsumed(After(s, task, o).tasks, t) && t != task
    ensures IsConsumed(s.tasks, t) && After(s, task, o).tasks[t] == s.tasks[t]
  {
  }

  lemma QuietKeepsConsumed(s: State, task: nat, o: Outcome)
    requires Inv(s) && IsQuiet(s, task, o)
    ensures ConsumedInv(After(s, task, o))
  {
    hide NextIsSound;
    var w := After(s, task, o);
    forall t | IsConsumed(w.tasks, t)
      ensures w.tasks[t].requestId !in w.policy.capabilities
           && Authorizes(w.grants, w.tasks[t].requestId, w.tasks[t].offer.Bind(w.tasks[t].generation), w.tasks[t].consumedAt)
           && w.tasks[t].itemId in w.tasks[t].offer.candidates
    {
      if t != task {
        OtherTasksStay(s, task, o, t);
      } else {
        NewlyConsumed(s, task, o);
      }
    }
  }

  lemma NewlyConsumed(s: State, task: nat, o: Outcome)
    requires Inv(s) && IsQuiet(s, task, o) && IsConsumed(After(s, task, o).tasks, task)
    ensures var next := After(s, task, o).tasks[task];
            && next.requestId in s.policy.capabilities && next.requestId !in o.policy.capabilities
            && Authorizes(After(s, task, o).grants, next.requestId, next.offer.Bind(next.generation), next.consumedAt)
            && next.itemId in next.offer.candidates
  {
  }

  lemma QuietKeepsConsumedOnce(s: State, task: nat, o: Outcome)
    requires Inv(s) && IsQuiet(s, task, o)
    ensures ConsumedOnce(After(s, task, o)) && FilledIsNotPending(After(s, task, o))
  {
    hide NextIsSound;
    var w := After(s, task, o);
    if IsConsumed(w.tasks, task) {
      NewlyConsumed(s, task, o);
    }
    forall t | IsConsumed(w.tasks, t) && t != task
      ensures IsConsumed(s.tasks, t) && w.tasks[t] == s.tasks[t]
    {
      OtherTasksStay(s, task, o, t);
    }
  }

  lemma QuietKeepsRest(s: State, task: nat, o: Outcome)
    requires Inv(s) && IsQuiet(s, task, o)
    ensures var w := After(s, task, o); GrantsInv(w) && FillsInv(w) && FilledOnce(w) && TasksInv(w)
  {
  }

  lemma QuietSegmentKeeps(s: State, task: nat, o: Outcome)
    requires Inv(s) && IsQuiet(s, task, o)
    ensures Inv(After(s, task, o))
  {
    QuietKeepsConsumed(s, task, o);
    QuietKeepsConsumedOnce(s, task, o);
    QuietKeepsRest(s, task, o);
  }

  /** The segment that sends the fill of a consumed request. */
  lemma ReleasingSegmentKeeps(s: State, task: nat, found: bool)
    requires Inv(s) && IsConsumed(s.tasks, task)
    ensures Inv(After(s, task, Advance(s.policy, s.tasks[task], Fields(found))))
  {
    var w := After(s, task, Advance(s.policy, s.tasks[task], Fields(found)));
    assert forall t | IsConsumed(w.tasks, t) :: IsConsumed(s.tasks, t) && t != task && w.tasks[t] == s.tasks[t];
    assert FilledIsNotPending(w);
  }

  lemma ConsumptionIsSound(s: State, task: Task, tab: Option<(int, Origin)>, now: int)
    requires Inv(s) && task.AskingTab? && TaskIsActive(s.policy.session, task) && AsksForCandidate(task)
    ensures NextIsSound(s, AfterTab(s.policy, task.requestId, task.itemId, task.offer, task.generation, tab, now))
  {
  }

  lemma SettleKeepsInv(s: State, task: nat, answer: Answer)
    requires Inv(s)
    ensures Inv(Step(s, Settle(task, answer)))
  {
    if task in s.tasks && task != s.next {
      var o := Advance(s.policy, s.tasks[task], answer);
      AdvanceFollows(s.policy, s.tasks[task], answer);
      if s.tasks[task].FetchingFields? && answer.Fields? {
        ReleasingSegmentKeeps(s, task, answer.found);
      } else if s.tasks[task].FetchingFields? {
        assert o == Return(s.policy) || o == Await(s.policy, s.tasks[task]);
        UnchangedTaskKeeps(s, task, o);
      } else if DrawsFresh(s, o.effect) {
        if s.tasks[task].AskingTab? && answer.ActiveTab? {
          ConsumptionIsSound(s, s.tasks[task], answer.tab, answer.now);
        }
        QuietSegmentKeeps(s, task, o);
      }
    }
  }

  lemma UnchangedTaskKeeps(s: State, task: nat, o: Outcome)
    requires Inv(s) && task in s.tasks && task != s.next
    requires o == Return(s.policy) || o == Await(s.policy, s.tasks[task])
    ensures Inv(After(s, task, o))
  {
    var w := After(s, task, o);
    assert forall t | t in w.tasks :: t in s.tasks && w.tasks[t] == s.tasks[t];
  }

  lemma StepKeepsInv(s: State, event: Event)
    requires Inv(s)
    ensures Inv(Step(s, event))
  {
    match event {
      case Settle(task, answer) => SettleKeepsInv(s, task, answer);
      case FromPopup(message, now) =>
        StepFollows(s, event);
        var o := HandlePopup(s.policy, message, now);
        if DrawsFresh(s, o.effect) {
          QuietSegmentKeeps(s, s.next, o);
        }
      case _ =>
        StepFollows(s, event);
        PolicyStepKeeps(s, Step(s, event));
    }
  }

  lemma {:induction false} RunKeepsInv(s: State, events: seq<Event>)
    requires Inv(s)
    ensures Inv(Run(s, events))
    decreases |events|
  {
    if events != [] {
      StepKeepsInv(s, events[0]);
      RunKeepsInv(Step(s, events[0]), events[1..]);
    }
  }

  // Who asked.

  predicate WasAsked(asked: map<nat, Asked>, o: Offer, generation: int) {
    && o.serial in asked && asked[o.serial].generation <= generation
    && asked[o.serial] == Asked(asked[o.serial].generation, o.tabId, o.documentId, o.origin, o.formActionOrigin, o.candidates)
  }

  predicate TaskWasAsked(asked: map<nat, Asked>, task: Task) {
    task.AskingTab? || task.FetchingFields? ==> WasAsked(asked, task.offer, task.generation)
  }

  predicate FillWasAsked(asked: map<nat, Asked>, f: Fill) {
    && f.serial in asked && asked[f.serial].generation <= f.generation && f.itemId in asked[f.serial].candidates
    && asked[f.serial] == Asked(asked[f.serial].generation, f.tabId, f.documentId, f.origin, f.formActionOrigin, asked[f.serial].candidates)
  }

  ghost predicate AskedInv(s: State) {
    && (forall serial | serial in s.asked :: serial < s.policy.offersMade)
    && (s.policy.pendingOffer.Some? ==> WasAsked(s.asked, s.policy.pendingOffer.value, s.policy.session.generation))
    && (forall t | t in s.tasks :: TaskWasAsked(s.asked, s.tasks[t]))
    && (forall k | 0 <= k < |s.fills| :: FillWasAsked(s.asked, s.fills[k]))
  }

  lemma ContentKeepsAsked(s: State, message: Content, now: int)
    requires AskedInv(s)
    ensures AskedInv(Step(s, FromContent(message, now)))
  {
    var w := Step(s, FromContent(message, now));
    assert forall serial | serial in s.asked :: serial in w.asked && w.asked[serial] == s.asked[serial];
  }

  /** Segments make no offer; a fill names an item of the offer that its task carries. */
  lemma SegmentKeepsAsked(s: State, task: nat, o: Outcome)
    requires AskedInv(s) && Follows(s.policy.session, o.policy.session) && o.policy.offersMade == s.policy.offersMade
    requires o.policy.pendingOffer.Some? ==> o.policy.pendingOffer == s.policy.pendingOffer
    requires o.next.Some? ==> TaskWasAsked(s.asked, o.next.value)
    requires o.effect.Released? ==> FillWasAsked(s.asked, o.effect.fill)
    ensures AskedInv(After(s, task, o))
  {
  }

  lemma PopupKeepsAsked(s: State, popup: Popup, now: int)
    requires AskedInv(s)
    ensures AskedInv(Step(s, FromPopup(popup, now)))
  {
    var o := HandlePopup(s.policy, popup, now);
    hide After;
    assert o.next.Some? ==> TaskWasAsked(s.asked, o.next.value);
    SegmentKeepsAsked(s, s.next, o);
  }

  lemma SettleKeepsAsked(s: State, task: nat, answer: Answer)
    requires Inv(s) && AskedInv(s) && task in s.tasks && task != s.next
    ensures AskedInv(Step(s, Settle(task, answer)))
  {
    var o := Advance(s.policy, s.tasks[task], answer);
    assert TaskWasAsked(s.asked, s.tasks[task]);
    AdvanceFollows(s.policy, s.tasks[task], answer);
    hide After;
    SegmentKeepsAsked(s, task, o);
  }

  lemma StepKeepsAsked(s: State, event: Event)
    requires Inv(s) && AskedInv(s)
    ensures AskedInv(Step(s, event))
  {
    match event {
      case FromContent(message, now) => ContentKeepsAsked(s, message, now);
      case FromPopup(message, now) => PopupKeepsAsked(s, message, now);
      case Settle(task, answer) =>
        if task in s.tasks && task != s.next {
          SettleKeepsAsked(s, task, answer);
        }
      case _ =>
    }
  }

  lemma {:induction false} RunKeepsAsked(s: State, events: seq<Event>)
    requires Inv(s) && AskedInv(s)
    ensures Inv(Run(s, events)) && AskedInv(Run(s, events))
    decreases |events|
  {
    if events != [] {
      StepKeepsInv(s, events[0]);
      StepKeepsAsked(s, events[0]);
      RunKeepsAsked(Step(s, events[0]), events[1..]);
    }
  }

  // Main results.

  /** In every run a fill goes only to a document whose own request was answered by an offer: in an
      active session, of that tab, origin and form-action origin, with an item the decision named, and
      in no later generation. */
  lemma FillsGoWhereTheyWereAsked(features: Features, events: seq<Event>, k: nat)
    requires k < |Run(Init(features), events).fills|
    ensures var s := Run(Init(features), events); FillWasAsked(s.asked, s.fills[k])
  {
    RunKeepsAsked(Init(features), events);
  }

  /** In every run each released fill was authorized by an earlier grant with the same
      generation, tab, document, origin and form-action origin, consumed at most 30 s after
      it was granted, and no grant ever authorizes two fills. */
  lemma FillsAreAuthorizedOnce(features: Features, events: seq<Event>)
    ensures var s := Run(Init(features), events);
            && (forall k | 0 <= k < |s.fills| ::
                  Authorizes(s.grants, s.fills[k].requestId, BindingOf(s.fills[k]), s.fills[k].consumedAt))
            && (forall j, k | 0 <= j < k < |s.fills| :: s.fills[j].requestId != s.fills[k].requestId)
  {
    RunKeepsInv(Init(features), events);
  }

  /** What a step that sends a fill was given: the session is active in the generation the
      item was selected in, and the item is one the offer named. */
  lemma FillsLeaveAnActiveSession(features: Features, events: seq<Event>, event: Event)
    requires Step(Run(Init(features), events), event).fills != Run(Init(features), events).fills
    ensures var s := Run(Init(features), events);
            && event.Settle? && IsConsumed(s.tasks, event.task)
            && s.policy.session.active && s.policy.session.generation == s.tasks[event.task].generation
            && Step(s, event).fills == s.fills + [Fill(
                 s.tasks[event.task].requestId, s.tasks[event.task].itemId, s.tasks[event.task].offer.serial, s.tasks[event.task].offer.tabId,
                 s.tasks[event.task].offer.documentId, s.tasks[event.task].offer.origin,
                 s.tasks[event.task].offer.formActionOrigin, s.tasks[event.task].generation, s.tasks[event.task].consumedAt)]
            && s.tasks[event.task].itemId in s.tasks[event.task].offer.candidates
  {
    RunKeepsInv(Init(features), events);
  }

  /** A grant of an older generation authorizes nothing any more, though a timeout leaves
      its capability in the store. */
  lemma {:induction false} OldGrantsReleaseNothing(s: State, events: seq<Event>, id: Id)
    requires Inv(s) && id in s.grants && s.grants[id].binding.generation < s.policy.session.generation
    ensures var t := Run(s, events);
            s.fills <= t.fills && forall k | |s.fills| <= k < |t.fills| :: t.fills[k].requestId != id
    decreases |events|
  {
    if events != [] {
      var next := Step(s, events[0]);
      StepKeepsInv(s, events[0]);
      StepFollows(s, events[0]);
      StepExtends(s, events[0]);
      OldGrantsReleaseNothing(next, events[1..], id);
    }
  }

  /** A step keeps the grants, and a fill it releases is of the current generation. */
  lemma StepExtends(s: State, event: Event)
    requires Inv(s)
    ensures var t := Step(s, event);
            && (forall id | id in s.grants :: id in t.grants && t.grants[id] == s.grants[id])
            && (t.fills == s.fills
                || (|t.fills| == |s.fills| + 1 && s.fills <= t.fills && t.fills[|s.fills|].requestId in s.grants
                    && s.grants[t.fills[|s.fills|].requestId].binding.generation == s.policy.session.generation))
  {
  }

  // No lock between the popup's selection and the send.

  /** What the selection left to do, before or after its capability was consumed. */
  predicate IsFill(s: State, t: nat, generation: int) {
    && t < s.next
    && (t in s.tasks ==>
          || s.tasks[t].Sending?
          || ((s.tasks[t].AskingTab? || s.tasks[t].FetchingFields?) && s.tasks[t].generation == generation))
  }

  lemma StepKeepsFill(s: State, event: Event, t: nat, generation: int)
    requires IsFill(s, t, generation)
    ensures IsFill(Step(s, event), t, generation)
  {
  }

  lemma {:induction false} RunKeepsFill(s: State, events: seq<Event>, t: nat, generation: int)
    requires IsFill(s, t, generation)
    ensures IsFill(Run(s, events), t, generation)
    decreases |events|
  {
    if events != [] {
      StepKeepsFill(s, events[0], t, generation);
      RunKeepsFill(Step(s, events[0]), events[1..], t, generation);
    }
  }

  lemma {:induction false} RunSplits(s: State, events: seq<Event>, i: nat)
    requires i <= |events|
    ensures Run(s, events) == Run(Run(s, events[..i]), events[i..])
    decreases |events|
  {
    if i == 0 {
      assert events[..0] == [] && events[0..] == events;
    } else {
      RunSplits(Step(s, events[0]), events[1..], i - 1);
      assert events[..i][1..] == events[1..][..i - 1] && events[..i][0] == events[0];
      assert events[1..][i - 1..] == events[i..];
    }
  }

  lemma SendIsInItsGeneration(s: State, t: nat, generation: int, answer: Answer)
    requires Inv(s) && IsFill(s, t, generation) && Step(s, Settle(t, answer)).fills != s.fills
    ensures t in s.tasks && s.policy.session.generation == generation && s.policy.session.active
  {
  }

  /** What a selection leaves: its task, or none when it was refused. */
  lemma SelectionStartsFill(s: State, requestId: Id, itemId: Id, now: int)
    requires Inv(s)
    ensures var selected := Step(s, FromPopup(FillSelected(requestId, itemId), now));
            && Inv(selected) && s.next < selected.next
            && (s.next in selected.tasks ==>
                  IsFill(selected, s.next, selected.policy.session.generation) && selected.policy.session.active)
  {
    StepKeepsInv(s, FromPopup(FillSelected(requestId, itemId), now));
  }

  /** From the popup's selection to the send of its fill, in whatever run lies between, the
      session is never locked and its generation never changes. */
  lemma NoLockBetweenSelectionAndSend(
    features: Features, before: seq<Event>, requestId: Id, itemId: Id, now: int, between: seq<Event>, answer: Answer, i: nat)
    requires i <= |between|
    requires var selecting := Run(Init(features), before);
             var s := Run(Step(selecting, FromPopup(FillSelected(requestId, itemId), now)), between);
             Step(s, Settle(selecting.next, answer)).fills != s.fills
    ensures var selecting := Run(Init(features), before);
            var selected := Step(selecting, FromPopup(FillSelected(requestId, itemId), now));
            var mid := Run(selected, between[..i]).policy.session;
            mid.active && mid.generation == selected.policy.session.generation
  {
    RunKeepsInv(Init(features), before);
    var selecting := Run(Init(features), before);
    var selected := Step(selecting, FromPopup(FillSelected(requestId, itemId), now));
    SelectionStartsFill(selecting, requestId, itemId, now);
    FillIsUninterrupted(selected, selecting.next, between, answer, i);
  }

  lemma FillIsUninterrupted(selected: State, t: nat, between: seq<Event>, answer: Answer, i: nat)
    requires Inv(selected) && t < selected.next && i <= |between|
    requires t in selected.tasks ==> IsFill(selected, t, selected.policy.session.generation) && selected.policy.session.active
    requires Step(Run(selected, between), Settle(t, answer)).fills != Run(selected, between).fills
    ensures var mid := Run(selected, between[..i]).policy.session;
            mid.active && mid.generation == selected.policy.session.generation
  {
    if t !in selected.tasks {
      NeverReused(selected, between, t);
      assert false;
    }
    var generation := selected.policy.session.generation;
    RunKeepsInv(selected, between);
    RunKeepsFill(selected, between, t, generation);
    SendIsInItsGeneration(Run(selected, between), t, generation, answer);
    RunSplits(selected, between, i);
    ActiveGenerationStaysActive(selected, between[..i]);
    ActiveGenerationStaysActive(Run(selected, between[..i]), between[i..]);
  }

  /** A finished task's number is not given out again. */
  lemma {:induction false} NeverReused(s: State, events: seq<Event>, t: nat)
    requires t < s.next && t !in s.tasks
    ensures t !in Run(s, events).tasks
    decreases |events|
  {
    if events != [] {
      NeverReused(Step(s, events[0]), events[1..], t);
    }
  }

  // An offer may outlive its generation.

  /** The message handler's deadline check locks the session. */
  predicate TimesOut(s: State, event: Event) {
    (event.FromContent? || event.FromPopup?) && s.policy.session.EnsureActive(event.now) != s.policy.session
  }

  /** The content message of the offer with this serial. */
  predicate Offers(s: State, event: Event, serial: nat) {
    event.FromContent? && s.policy.offersMade == serial && Step(s, event).policy.offersMade == serial + 1
  }

  /** The popup message that selects an item of the offer for this task. */
  predicate Selects(s: State, event: Event, t: nat, requestId: Id, itemId: Id, offer: Offer, generation: int) {
    && event.FromPopup? && event.popup == FillSelected(requestId, itemId) && s.next == t
    && s.policy.pendingOffer == Some(offer) && s.policy.session.generation == generation && !TimesOut(s, event)
  }

  /** No message between the two positions found the session timed out. */
  ghost predicate NoTimeout(start: State, events: seq<Event>, i: nat, j: nat) {
    forall n {:trigger events[n]} | i < n < j && n < |events| :: !TimesOut(Run(start, events[..n]), events[n])
  }

  lemma {:induction false} RunSnoc(s: State, events: seq<Event>)
    requires events != []
    ensures Run(s, events) == Step(Run(s, events[..|events| - 1]), events[|events| - 1])
  {
    RunSplits(s, events, |events| - 1);
    var last := events[|events| - 1..];
    assert last == [events[|events| - 1]] && last[1..] == [];
  }

  /** An offer that stays pending: the generation moves by a timeout, and by nothing else. */
  lemma PendingStepMoves(s: State, event: Event, offer: Offer)
    requires s.policy.pendingOffer == Some(offer) && Step(s, event).policy.pendingOffer == Some(offer)
    ensures if TimesOut(s, event) then Step(s, event).policy.session.generation == s.policy.session.generation + 1
            else Step(s, event).policy.session.generation == s.policy.session.generation
  {
  }

  /** A pending offer was pending before, or was just made. */
  lemma PendingComesFrom(s: State, event: Event, offer: Offer)
    requires AskedInv(s) && Step(s, event).policy.pendingOffer == Some(offer)
    ensures || (s.policy.pendingOffer == Some(offer) && Step(s, event).asked.Keys >= s.asked.Keys
                && offer.serial in s.asked && Step(s, event).asked[offer.serial] == s.asked[offer.serial])
            || (Offers(s, event, offer.serial) && offer.serial in Step(s, event).asked
                && Step(s, event).asked[offer.serial].generation == Step(s, event).policy.session.generation)
  {
  }

  lemma NoTimeoutExtends(start: State, events: seq<Event>, i: nat)
    requires events != [] && i < |events| - 1
    ensures var front := events[..|events| - 1];
            NoTimeout(start, events, i, |events|)
            <==> NoTimeout(start, front, i, |front|) && !TimesOut(Run(start, front), events[|events| - 1])
  {
    var front := events[..|events| - 1];
    assert forall n | 0 <= n < |front| :: front[n] == events[n] && front[..n] == events[..n];
    if NoTimeout(start, front, i, |front|) && !TimesOut(Run(start, front), events[|events| - 1]) {
      forall n | i < n < |events|
        ensures !TimesOut(Run(start, events[..n]), events[n])
      {
        if n < |front| {
          assert !TimesOut(Run(start, front[..n]), front[n]);
        }
      }
    }
    if NoTimeout(start, events, i, |events|) {
      forall n | i < n < |front|
        ensures !TimesOut(Run(start, front[..n]), front[n])
      {
        assert !TimesOut(Run(start, events[..n]), events[n]);
      }
      assert !TimesOut(Run(start, events[..|events| - 1]), events[|events| - 1]);
    }
  }

  /** A pending offer is still of the session's generation if and only if nothing timed out since it was made. */
  lemma {:induction false} PendingGenerationIff(features: Features, events: seq<Event>) returns (i: nat)
    requires Run(Init(features), events).policy.pendingOffer.Some?
    ensures var s := Run(Init(features), events);
            var serial := s.policy.pendingOffer.value.serial;
            && i < |events| && Offers(Run(Init(features), events[..i]), events[i], serial)
            && serial in s.asked
            && (s.asked[serial].generation == s.policy.session.generation <==> NoTimeout(Init(features), events, i, |events|))
    decreases |events|
  {
    var front, event := events[..|events| - 1], events[|events| - 1];
    RunSnoc(Init(features), events);
    RunKeepsAsked(Init(features), front);
    var before, s := Run(Init(features), front), Run(Init(features), events);
    var offer := s.policy.pendingOffer.value;
    PendingComesFrom(before, event, offer);
    if before.policy.pendingOffer == Some(offer) {
      i := PendingGenerationIff(features, front);
      assert front[..i] == events[..i];
      PendingStepMoves(before, event, offer);
      NoTimeoutExtends(Init(features), events, i);
    } else {
      i := |events| - 1;
      assert NoTimeout(Init(features), events, i, |events|);
    }
  }

  /** A fill's task comes from a selection of its pending offer in its generation. */
  lemma {:induction false} FillWasSelected(features: Features, events: seq<Event>, t: nat) returns (j: nat)
    requires var s := Run(Init(features), events); t in s.tasks && (s.tasks[t].AskingTab? || s.tasks[t].FetchingFields?)
    ensures var task := Run(Init(features), events).tasks[t];
            && j < |events|
            && Selects(Run(Init(features), events[..j]), events[j], t, task.requestId, task.itemId, task.offer, task.generation)
    decreases |events|
  {
    var front, event := events[..|events| - 1], events[|events| - 1];
    RunSnoc(Init(features), events);
    RunKeepsInv(Init(features), front);
    var before, s := Run(Init(features), front), Run(Init(features), events);
    TaskComesFrom(before, event, t);
    if t in before.tasks && (before.tasks[t].AskingTab? || before.tasks[t].FetchingFields?) {
      j := FillWasSelected(features, front, t);
      assert front[..j] == events[..j];
    } else {
      j := |events| - 1;
    }
  }

  predicate IsFilling(tasks: map<nat, Task>, t: nat) {
    t in tasks && (tasks[t].AskingTab? || tasks[t].FetchingFields?)
  }

  /** The parts of a fill's task that its segments hand on. */
  predicate SameFill(a: Task, b: Task)
    requires (a.AskingTab? || a.FetchingFields?) && (b.AskingTab? || b.FetchingFields?)
  {
    a.requestId == b.requestId && a.itemId == b.itemId && a.offer == b.offer && a.generation == b.generation
  }

  lemma TaskComesFrom(s: State, event: Event, t: nat)
    requires Inv(s) && IsFilling(Step(s, event).tasks, t)
    ensures var task := Step(s, event).tasks[t];
            if IsFilling(s.tasks, t) then SameFill(s.tasks[t], task)
            else Selects(s, event, t, task.requestId, task.itemId, task.offer, task.generation)
  {
    assert TasksInv(s);
    hide Inv, TasksInv;
    if event.FromPopup? {
      PopupStartsFill(s, event.popup, event.now, t);
    } else if event.Settle? && event.task in s.tasks && event.task != s.next {
      SettleKeepsFill(s, event.task, event.answer, t);
    }
  }

  lemma PopupStartsFill(s: State, popup: Popup, now: int, t: nat)
    requires IsFilling(Step(s, FromPopup(popup, now)).tasks, t)
    ensures var w := Step(s, FromPopup(popup, now));
            if t in s.tasks && t != s.next then w.tasks[t] == s.tasks[t]
            else t == s.next
                 && (w.next == s.next
                     || Selects(s, FromPopup(popup, now), t, w.tasks[t].requestId, w.tasks[t].itemId, w.tasks[t].offer,
                                w.tasks[t].generation))
  {
  }

  lemma SettleKeepsFill(s: State, task: nat, answer: Answer, t: nat)
    requires task in s.tasks && task != s.next && IsFilling(Step(s, Settle(task, answer)).tasks, t)
    ensures IsFilling(s.tasks, t) && SameFill(s.tasks[t], Step(s, Settle(task, answer)).tasks[t])
  {
  }

  lemma NoTimeoutPrefix(start: State, events: seq<Event>, i: nat, j: nat)
    requires i < j <= |events|
    ensures NoTimeout(start, events[..j], i, j) <==> NoTimeout(start, events, i, j)
  {
    assert forall n | 0 <= n < j :: events[..j][n] == events[n] && events[..j][..n] == events[..n];
    if NoTimeout(start, events[..j], i, j) {
      forall n | i < n < j
        ensures !TimesOut(Run(start, events[..n]), events[n])
      {
        assert !TimesOut(Run(start, events[..j][..n]), events[..j][n]);
      }
    }
    if NoTimeout(start, events, i, j) {
      forall n | i < n < j
        ensures !TimesOut(Run(start, events[..j][..n]), events[..j][n])
      {
        assert !TimesOut(Run(start, events[..n]), events[n]);
      }
    }
  }

  /** A fill is of the generation its offer was made in if and only if no message between the offer and
      the popup's selection found the session timed out. */
  lemma FillGenerationIff(features: Features, events: seq<Event>, event: Event) returns (i: nat, j: nat)
    requires Step(Run(Init(features), events), event).fills != Run(Init(features), events).fills
    ensures var s := Run(Init(features), events);
            var fills := Step(s, event).fills;
            && |fills| == |s.fills| + 1
            && var f := fills[|s.fills|];
               && i < j < |events|
               && Offers(Run(Init(features), events[..i]), events[i], f.serial)
               && events[j].FromPopup? && events[j].popup == FillSelected(f.requestId, f.itemId)
               && f.serial in s.asked
               && (s.asked[f.serial].generation == f.generation <==> NoTimeout(Init(features), events, i, j))
  {
    FillsLeaveAnActiveSession(features, events, event);
    var s := Run(Init(features), events);
    j := FillWasSelected(features, events, event.task);
    i := PendingGenerationIff(features, events[..j]);
    assert events[..j][..i] == events[..i];
    NoTimeoutPrefix(Init(features), events, i, j);
    RunSplits(Init(features), events, j);
    RunKeepsAsked(Init(features), events[..j]);
    AskedStays(Run(Init(features), events[..j]), events[j..], s.tasks[event.task].offer.serial);
  }

  lemma {:induction false} AskedStays(s: State, events: seq<Event>, serial: nat)
    requires Inv(s) && AskedInv(s) && serial in s.asked
    ensures serial in Run(s, events).asked && Run(s, events).asked[serial] == s.asked[serial]
    decreases |events|
  {
    if events != [] {
      StepKeepsInv(s, events[0]);
      StepKeepsAsked(s, events[0]);
      AskedStays(Step(s, events[0]), events[1..], serial);
    }
  }

  // A run in which one does.

  const UNLOCKABLE := Features(true, true, false, false)

  /** Past the deadline of a session active since instant 0. */
  const LATE: int := POPUP_INACTIVITY_LIMIT_MS + 1

  /** An unlock, an offer, and after the deadline an unlock again. */
  function UnlockAgain(tabId: int, documentId: string, origin: Origin, itemId: Id): seq<Event> {
    [FromPopup(Unlock, 0)] + [Settle(0, UnlockResult(true, 0))]
    + [FromContent(Request(tabId, origin, Some(documentId), true, None, Some({itemId})), 0)]
    + [FromPopup(Unlock, LATE)] + [Settle(1, UnlockResult(true, LATE))]
  }

  /** Then a grant, a selection and its release. */
  function FillOldOffer(tabId: int, documentId: string, origin: Origin, itemId: Id, requestId: Id): seq<Event> {
    UnlockAgain(tabId, documentId, origin, itemId)
    + [FromPopup(RequestCandidates(requestId), LATE)] + [FromPopup(FillSelected(requestId, itemId), LATE)]
    + [Settle(3, ActiveTab(Some((tabId, origin)), LATE))] + [Settle(3, Fields(true))]
  }

  lemma RunThen(s: State, events: seq<Event>, event: Event)
    ensures Run(s, events + [event]) == Step(Run(s, events), event)
  {
    RunSnoc(s, events + [event]);
    assert (events + [event])[..|events + [event]| - 1] == events;
  }

  /** Re-unlocking a session that timed out runs no lock cycle: the offer of generation 1 is still pending
      in the active generation 2. */
  lemma OfferSurvivesReunlock(tabId: int, documentId: string, origin: Origin, itemId: Id)
    ensures var s := Run(Init(UNLOCKABLE), UnlockAgain(tabId, documentId, origin, itemId));
            var offer := Offer(0, tabId, origin, documentId, origin, {itemId});
            && s.policy == Policy(Lifecycle(2, true, Some(LATE), Timeout), map[], Some(offer), 1, UNLOCKABLE)
            && s.tasks == map[] && s.next == 2 && s.grants == map[] && s.fills == []
            && s.asked == map[0 := Asked(1, tabId, documentId, origin, origin, {itemId})]
  {
    var request := FromContent(Request(tabId, origin, Some(documentId), true, None, Some({itemId})), 0);
    var e1 := [FromPopup(Unlock, 0)];
    var e2 := e1 + [Settle(0, UnlockResult(true, 0))];
    var e3 := e2 + [request];
    var e4 := e3 + [FromPopup(Unlock, LATE)];
    RunThen(Init(UNLOCKABLE), [], FromPopup(Unlock, 0));
    RunThen(Init(UNLOCKABLE), e1, Settle(0, UnlockResult(true, 0)));
    RunThen(Init(UNLOCKABLE), e2, request);
    RunThen(Init(UNLOCKABLE), e3, FromPopup(Unlock, LATE));
    RunThen(Init(UNLOCKABLE), e4, Settle(1, UnlockResult(true, LATE)));
    assert [] + e1 == e1;
    hide Run;
    UnlocksFirst();
    OffersAndTimesOut(Run(Init(UNLOCKABLE), e2), tabId, documentId, origin, itemId);
  }

  lemma UnlocksFirst()
    ensures var s := Step(Step(Init(UNLOCKABLE), FromPopup(Unlock, 0)), Settle(0, UnlockResult(true, 0)));
            s == State(Policy(Lifecycle(1, true, Some(0), Startup), map[], None, 0, UNLOCKABLE), map[], 1, map[], [], map[])
  {
    var s := Step(Init(UNLOCKABLE), FromPopup(Unlock, 0));
    assert s == State(Policy(Lifecycle(1, false, None, Startup), map[], None, 0, UNLOCKABLE), map[0 := Unlocking], 1, map[], [], map[]);
  }

  lemma OffersAndTimesOut(s: State, tabId: int, documentId: string, origin: Origin, itemId: Id)
    requires s == State(Policy(Lifecycle(1, true, Some(0), Startup), map[], None, 0, UNLOCKABLE), map[], 1, map[], [], map[])
    ensures var request := FromContent(Request(tabId, origin, Some(documentId), true, None, Some({itemId})), 0);
            var offer := Offer(0, tabId, origin, documentId, origin, {itemId});
            Step(Step(Step(s, request), FromPopup(Unlock, LATE)), Settle(1, UnlockResult(true, LATE)))
            == State(Policy(Lifecycle(2, true, Some(LATE), Timeout), map[], Some(offer), 1, UNLOCKABLE), map[], 2, map[], [],
                     map[0 := Asked(1, tabId, documentId, origin, origin, {itemId})])
  {
    var request := FromContent(Request(tabId, origin, Some(documentId), true, None, Some({itemId})), 0);
    var offer := Offer(0, tabId, origin, documentId, origin, {itemId});
    var asked := map[0 := Asked(1, tabId, documentId, origin, origin, {itemId})];
    var s3 := Step(s, request);
    assert s3 == State(Policy(Lifecycle(1, true, Some(0), Startup), map[], Some(offer), 1, UNLOCKABLE), map[], 1, map[], [], asked);
    var s4 := Step(s3, FromPopup(Unlock, LATE));
    assert s4 == State(Policy(Lifecycle(2, false, None, Timeout), map[], Some(offer), 1, UNLOCKABLE), map[1 := Unlocking], 2, map[], [], asked);
  }

  /** And it is granted and filled there. */
  lemma OldOfferIsFilled(tabId: int, documentId: string, origin: Origin, itemId: Id, requestId: Id)
    requires |requestId| == REQUEST_ID_LENGTH
    ensures var s := Run(Init(UNLOCKABLE), FillOldOffer(tabId, documentId, origin, itemId, requestId));
            && s.fills == [Fill(requestId, itemId, 0, tabId, documentId, origin, origin, 2, LATE)]
            && 0 in s.asked && s.asked[0].generation == 1
  {
    var e5 := UnlockAgain(tabId, documentId, origin, itemId);
    var e6 := e5 + [FromPopup(RequestCandidates(requestId), LATE)];
    var e7 := e6 + [FromPopup(FillSelected(requestId, itemId), LATE)];
    var e8 := e7 + [Settle(3, ActiveTab(Some((tabId, origin)), LATE))];
    OfferSurvivesReunlock(tabId, documentId, origin, itemId);
    RunThen(Init(UNLOCKABLE), e5, FromPopup(RequestCandidates(requestId), LATE));
    RunThen(Init(UNLOCKABLE), e6, FromPopup(FillSelected(requestId, itemId), LATE));
    RunThen(Init(UNLOCKABLE), e7, Settle(3, ActiveTab(Some((tabId, origin)), LATE)));
    RunThen(Init(UNLOCKABLE), e8, Settle(3, Fields(true)));
    hide Run, UnlockAgain;
    GrantsAndFills(Run(Init(UNLOCKABLE), e5), Offer(0, tabId, origin, documentId, origin, {itemId}), itemId, requestId);
  }

  lemma GrantsAndFills(s: State, offer: Offer, itemId: Id, requestId: Id)
    requires s.policy == Policy(Lifecycle(2, true, Some(LATE), Timeout), map[], Some(offer), 1, UNLOCKABLE)
    requires s.tasks == map[] && s.next == 2 && s.grants == map[] && s.fills == []
    requires itemId in offer.candidates && |requestId| == REQUEST_ID_LENGTH
    ensures var selected := Step(Step(s, FromPopup(RequestCandidates(requestId), LATE)), FromPopup(FillSelected(requestId, itemId), LATE));
            var end := Step(Step(selected, Settle(3, ActiveTab(Some((offer.tabId, offer.origin)), LATE))), Settle(3, Fields(true)));
            && end.fills == [Fill(requestId, itemId, offer.serial, offer.tabId, offer.documentId, offer.origin, offer.formActionOrigin, 2, LATE)]
            && end.asked == s.asked
  {
    var granted := Step(s, FromPopup(RequestCandidates(requestId), LATE));
    assert granted.policy.capabilities == map[requestId := Capability(offer.Bind(2), LATE)] && granted.next == 3;
    var selected := Step(granted, FromPopup(FillSelected(requestId, itemId), LATE));
    assert selected.tasks[3] == AskingTab(requestId, itemId, offer, 2) && selected.policy.capabilities == granted.policy.capabilities;
    var consumed := Step(selected, Settle(3, ActiveTab(Some((offer.tabId, offer.origin)), LATE)));
    assert consumed.tasks[3] == FetchingFields(requestId, itemId, offer, 2, LATE);
  }
}
