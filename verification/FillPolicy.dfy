/**
 The extension's release of a fill: `SessionStateMachine`, `FillCapabilityStore`
 (`packages/extension-adapters/src`) and `BackgroundPolicy`
 (`apps/extension/src/background.ts`). As in the web client every `await` ends a
 segment; the segments are functions here, and the classes below run them in place.
 */
module FillPolicy {
  import opened Wrappers

  type Id = string
  type Origin = string

  const MAX_CAPABILITY_LIFETIME_MS: int := 30_000
  const POPUP_INACTIVITY_LIMIT_MS: int := 300_000
  /** `grant` draws 16 bytes and writes them in hexadecimal. */
  const REQUEST_ID_LENGTH: nat := 32

  // Lifecycle.

  datatype LockReason = Explicit | PopupClosed | Timeout | Startup

  datatype Lifecycle = Lifecycle(generation: int, active: bool, lastActivity: Option<int>, lastLock: LockReason)
  {
    function Lock(reason: LockReason): Lifecycle { Lifecycle(generation + 1, false, None, reason) }

    function MarkUnlocked(now: int): Lifecycle {
      if active then this else this.(active := true, lastActivity := Some(now))
    }

    function NoteActivity(now: int): Lifecycle {
      if active then this.(lastActivity := Some(now)) else this
    }

    function EnsureActive(now: int): Lifecycle {
      if active && (lastActivity.None? || now - lastActivity.value > POPUP_INACTIVITY_LIMIT_MS) then Lock(Timeout) else this
    }
  }

  // Capabilities.

  datatype Binding = Binding(generation: int, tabId: int, documentId: string, origin: Origin, formActionOrigin: Origin)

  datatype Capability = Capability(binding: Binding, grantedAt: int)

  datatype Consumption =
    | Accepted | Unknown | Expired | GenerationChanged | TabChanged | DocumentChanged | OriginChanged | FormActionChanged

  predicate WellFormedId(requestId: Id) { 0 < |requestId| <= 128 }

  /** What `consume` answers; the capability is spent whatever the answer. */
  function Check(capability: Capability, current: Binding, now: int): Consumption {
    var bound := capability.binding;
    if now - capability.grantedAt > MAX_CAPABILITY_LIFETIME_MS then Expired
    else if bound.generation != current.generation then GenerationChanged
    else if bound.tabId != current.tabId then TabChanged
    else if bound.documentId != current.documentId then DocumentChanged
    else if bound.origin != current.origin then OriginChanged
    else if bound.formActionOrigin != current.formActionOrigin then FormActionChanged
    else Accepted
  }

  function Consume(capabilities: map<Id, Capability>, requestId: Id, current: Binding, now: int): Consumption {
    if !WellFormedId(requestId) || requestId !in capabilities then Unknown else Check(capabilities[requestId], current, now)
  }

  function Spend(capabilities: map<Id, Capability>, requestId: Id): map<Id, Capability> {
    if WellFormedId(requestId) then capabilities - {requestId} else capabilities
  }

  // The policy.

  /** `serial` stands for the identity of the offer object. */
  datatype Offer = Offer(serial: nat, tabId: int, origin: Origin, documentId: string, formActionOrigin: Origin, candidates: set<Id>)
  {
    function Bind(generation: int): Binding { Binding(generation, tabId, documentId, origin, formActionOrigin) }
  }

  /** Which of the optional parts of the vault manager are there. */
  datatype Features = Features(vault: bool, unlock: bool, logout: bool, checkFresh: bool)

  datatype Policy = Policy(
    session: Lifecycle, capabilities: map<Id, Capability>, pendingOffer: Option<Offer>, offersMade: nat, features: Features)
  {
    /** `lock` and `lockFromPopupClose`. */
    function LockAll(reason: LockReason): Policy {
      this.(session := session.Lock(reason), capabilities := map[], pendingOffer := None)
    }
  }

  /** A fill message handed to `sendToDocument`, with the request, the offer and the generation that released it. */
  datatype Fill = Fill(
    requestId: Id, itemId: Id, serial: nat, tabId: int, documentId: string, origin: Origin, formActionOrigin: Origin,
    generation: int, consumedAt: int)

  datatype Task =
    | CheckingFresh(offer: Offer)
    | AskingTab(requestId: Id, itemId: Id, offer: Offer, generation: int)
    | FetchingFields(requestId: Id, itemId: Id, offer: Offer, generation: int, consumedAt: int)
    | Sending(generation: int)
    | Unlocking
    | LoggingOut

  datatype Answer =
    | Failed
    | Freshness(isFresh: bool, requestId: Id, now: int)
    | ActiveTab(tab: Option<(int, Origin)>, now: int)
    | Fields(found: bool)
    | Delivery(delivered: bool)
    | UnlockResult(ok: bool, now: int)
    | Done

  datatype Effect = NoEffect | Granted(requestId: Id, capability: Capability) | Released(fill: Fill)

  datatype Outcome = Outcome(policy: Policy, next: Option<Task>, effect: Effect)

  function Return(p: Policy): Outcome { Outcome(p, None, NoEffect) }

  function Await(p: Policy, next: Task): Outcome { Outcome(p, Some(next), NoEffect) }

  // Content messages.

  /** A content message by what its checks found; an unvalidated sender or shape is `Ignored`. */
  datatype Content =
    | Ignored
    | CancelOffer(tabId: int)
    | Request(tabId: int, origin: Origin, documentId: Option<string>, pageMatches: bool, formAction: Option<Origin>,
              decision: Option<set<Id>>)

  function HandleContent(p0: Policy, message: Content, now: int): Policy {
    var p := p0.(session := p0.session.EnsureActive(now));
    match message
    case Ignored => p
    case CancelOffer(tabId) =>
      if p.pendingOffer.Some? && p.pendingOffer.value.tabId == tabId then p.(pendingOffer := None) else p
    case Request(tabId, origin, documentId, pageMatches, formAction, decision) =>
      if !p.session.active || !p.features.vault || !pageMatches || decision.None? then p
      else if documentId.None? then p.(pendingOffer := None)
      else
        var action := if formAction.Some? then formAction.value else origin;
        p.(pendingOffer := Some(Offer(p.offersMade, tabId, origin, documentId.value, action, decision.value)),
           offersMade := p.offersMade + 1)
  }

  // Popup messages.

  /** A validated popup message; the ones that only read state are `ReadOnly`. */
  datatype Popup = ReadOnly | LockNow | Logout | RequestCandidates(requestId: Id) | Unlock | FillSelected(requestId: Id, itemId: Id)

  function GrantCandidates(p: Policy, offer: Offer, requestId: Id, now: int): Outcome {
    var capability := Capability(offer.Bind(p.session.generation), now);
    Outcome(p.(capabilities := p.capabilities[requestId := capability]), None, Granted(requestId, capability))
  }

  function StartFill(p: Policy, requestId: Id, itemId: Id): Outcome {
    if !p.session.active || !p.features.vault || p.pendingOffer.None? || itemId !in p.pendingOffer.value.candidates then Return(p)
    else Await(p, AskingTab(requestId, itemId, p.pendingOffer.value, p.session.generation))
  }

  function HandlePopup(p0: Policy, message: Popup, now: int): Outcome {
    var p := p0.(session := p0.session.EnsureActive(now).NoteActivity(now));
    match message
    case ReadOnly => Return(p)
    case LockNow => Return(p.LockAll(Explicit))
    case Logout => if p.features.vault && p.features.logout then Await(p, LoggingOut) else Return(p.LockAll(Explicit))
    case RequestCandidates(requestId) =>
      if !p.session.active || !p.features.vault || p.pendingOffer.None? then Return(p)
      else if !p.features.checkFresh then GrantCandidates(p, p.pendingOffer.value, requestId, now)
      else Await(p, CheckingFresh(p.pendingOffer.value))
    case Unlock =>
      if !p.features.vault || !p.features.unlock then Return(p)
      else Await(if p.session.active then p.LockAll(Explicit) else p, Unlocking)
    case FillSelected(requestId, itemId) => StartFill(p, requestId, itemId)
  }

  // After an `await`.

  function AfterFresh(p: Policy, offer: Offer, isFresh: bool, requestId: Id, now: int): Outcome {
    if !isFresh || !p.session.active || p.pendingOffer != Some(offer) then Return(p) else GrantCandidates(p, offer, requestId, now)
  }

  /** `#fillSelected` once the active tab is known: a lock, another tab or another origin
      refuses, and only then is the capability consumed. */
  function AfterTab(p: Policy, requestId: Id, itemId: Id, offer: Offer, generation: int, tab: Option<(int, Origin)>, now: int): Outcome {
    if !p.session.active || p.session.generation != generation then Return(p)
    else
      var spent := p.(capabilities := Spend(p.capabilities, requestId));
      if tab != Some((offer.tabId, offer.origin)) then Return(spent)
      else if Consume(p.capabilities, requestId, offer.Bind(p.session.generation), now) != Accepted then Return(spent)
      else Await(spent, FetchingFields(requestId, itemId, offer, generation, now))
  }

  /** Once the fields are known the message is sent in the same segment. */
  function AfterFields(p: Policy, requestId: Id, itemId: Id, offer: Offer, generation: int, consumedAt: int, found: bool): Outcome {
    if p.session.generation != generation || !found then Return(p)
    else
      var fill := Fill(requestId, itemId, offer.serial, offer.tabId, offer.documentId, offer.origin, offer.formActionOrigin, generation, consumedAt);
      Outcome(p, Some(Sending(p.session.generation)), Released(fill))
  }

  function AfterSend(p: Policy, generation: int): Policy {
    if p.session.generation != generation then p.LockAll(Explicit) else p.(pendingOffer := None)
  }

  function Advance(p: Policy, task: Task, answer: Answer): Outcome {
    match (task, answer)
    case (CheckingFresh(offer), Freshness(isFresh, requestId, now)) => AfterFresh(p, offer, isFresh, requestId, now)
    case (AskingTab(requestId, itemId, offer, generation), ActiveTab(tab, now)) =>
      AfterTab(p, requestId, itemId, offer, generation, tab, now)
    case (FetchingFields(requestId, itemId, offer, generation, consumedAt), Fields(found)) =>
      AfterFields(p, requestId, itemId, offer, generation, consumedAt, found)
    case (Sending(generation), Delivery(_)) => Return(AfterSend(p, generation))
    case (Sending(generation), Failed) => Return(AfterSend(p, generation))
    case (Unlocking, UnlockResult(ok, now)) => Return(if ok then p.(session := p.session.MarkUnlocked(now)) else p)
    case (LoggingOut, Done) => Return(p.LockAll(Explicit))
    case (LoggingOut, Failed) => Return(p.LockAll(Explicit))
    case (_, Failed) => Return(p)
    case _ => Await(p, task)
  }

  // Runs.

  datatype Event =
    | FromContent(message: Content, now: int)
    | FromPopup(popup: Popup, now: int)
    | PopupClosed
    | VaultAuthFailed
    | Settle(task: nat, answer: Answer)

  /** A request of a known document that passed every check in an active session, with the items the
      decision named and the generation it was made in. */
  datatype Asked = Asked(
    generation: int, tabId: int, documentId: string, origin: Origin, formActionOrigin: Origin, candidates: set<Id>)

  function AskedBy(session: Lifecycle, features: Features, message: Content): Option<Asked> {
    match message
    case Request(tabId, origin, Some(documentId), true, formAction, Some(candidates)) =>
      if session.active && features.vault then
        Some(Asked(session.generation, tabId, documentId, origin, if formAction.Some? then formAction.value else origin, candidates))
      else None
    case _ => None
  }

  /** The policy, its unfinished tasks, and the history of grants, of released fills and of the
      requests that were answered by an offer, under the offer's serial. */
  datatype State = State(
    policy: Policy, tasks: map<nat, Task>, next: nat, grants: map<Id, Capability>, fills: seq<Fill>, asked: map<nat, Asked>)

  function Init(features: Features): State {
    State(Policy(Lifecycle(1, false, None, Startup), map[], None, 0, features), map[], 0, map[], [], map[])
  }

  /** Request ids are fresh: an event that would draw one again, or one of another length, is not enabled. */
  predicate DrawsFresh(s: State, effect: Effect) {
    effect.Granted? ==> effect.requestId !in s.grants && |effect.requestId| == REQUEST_ID_LENGTH
  }

  function After(s: State, task: nat, o: Outcome): State {
    if !DrawsFresh(s, o.effect) then s
    else State(
      o.policy,
      if o.next.Some? then s.tasks[task := o.next.value] else s.tasks - {task},
      if task == s.next then s.next + 1 else s.next,
      if o.effect.Granted? then s.grants[o.effect.requestId := o.effect.capability] else s.grants,
      if o.effect.Released? then s.fills + [o.effect.fill] else s.fills,
      s.asked)
  }

  function Step(s: State, event: Event): State {
    match event
    case FromContent(message, now) =>
      var asked := AskedBy(s.policy.session.EnsureActive(now), s.policy.features, message);
      s.(policy := HandleContent(s.policy, message, now),
         asked := if asked.Some? then s.asked[s.policy.offersMade := asked.value] else s.asked)
    case FromPopup(message, now) => After(s, s.next, HandlePopup(s.policy, message, now))
    case PopupClosed => s.(policy := s.policy.LockAll(LockReason.PopupClosed))
    case VaultAuthFailed => s.(policy := s.policy.LockAll(Explicit))
    case Settle(task, answer) =>
      if task in s.tasks && task != s.next then After(s, task, Advance(s.policy, s.tasks[task], answer)) else s
  }

  function Run(s: State, events: seq<Event>): State
    decreases |events|
  {
    if events == [] then s else Run(Step(s, events[0]), events[1..])
  }
}

/** The objects: each method runs one call or one segment on the fields. */
module FillPolicyObjects {
  import opened Wrappers
  import opened FillPolicy

  class SessionStateMachine {
    var generation: int
    var active: bool
    var lastTrustedActivityAt: Option<int>
    var lastLockReason: LockReason

    ghost function View(): Lifecycle
      reads this
    {
      Lifecycle(generation, active, lastTrustedActivityAt, lastLockReason)
    }

    constructor ()
      ensures View() == Lifecycle(1, false, None, Startup)
    {
      generation, active, lastTrustedActivityAt, lastLockReason := 1, false, None, Startup;
    }

    method Lock(reason: LockReason)
      modifies this
      ensures View() == old(View()).Lock(reason)
    {
      generation := generation + 1;
      active := false;
      lastTrustedActivityAt := None;
      lastLockReason := reason;
    }

    method MarkUnlocked(now: int)
      modifies this
      ensures View() == old(View()).MarkUnlocked(now)
    {
      if active {
        return;
      }
      active := true;
      lastTrustedActivityAt := Some(now);
    }

    method NoteTrustedPopupActivity(now: int)
      modifies this
      ensures View() == old(View()).NoteActivity(now)
    {
      if active {
        lastTrustedActivityAt := Some(now);
      }
    }

    method EnsureActive(now: int)
      modifies this
      ensures View() == old(View()).EnsureActive(now)
    {
      if !active {
        return;
      }
      if lastTrustedActivityAt.None? || now - lastTrustedActivityAt.value > POPUP_INACTIVITY_LIMIT_MS {
        Lock(Timeout);
      }
    }
  }

  class FillCapabilityStore {
    var capabilities: map<Id, Capability>

    constructor ()
      ensures capabilities == map[]
    {
      capabilities := map[];
    }

    method Grant(requestId: Id, binding: Binding, now: int)
      modifies this
      ensures capabilities == old(capabilities)[requestId := Capability(binding, now)]
    {
      capabilities := capabilities[requestId := Capability(binding, now)];
    }

    /** The entry goes whether the checks pass or fail. */
    method Consume(requestId: Id, current: Binding, now: int) returns (r: Consumption)
      modifies this
      ensures r == FillPolicy.Consume(old(capabilities), requestId, current, now)
      ensures capabilities == Spend(old(capabilities), requestId)
    {
      if !WellFormedId(requestId) {
        return Unknown;
      }
      var known := requestId in capabilities;
      var entry := if known then Some(capabilities[requestId]) else None;
      capabilities := capabilities - {requestId};
      if entry.None? {
        return Unknown;
      }
      return Check(entry.value, current, now);
    }

    method InvalidateAll()
      modifies this
      ensures capabilities == map[]
    {
      capabilities := map[];
    }
  }

  class BackgroundPolicy {
    const session: SessionStateMachine
    const capabilities: FillCapabilityStore
    const features: Features
    var pendingOffer: Option<Offer>
    var offersMade: nat

    ghost function View(): Policy
      reads this, session, capabilities
    {
      Policy(session.View(), capabilities.capabilities, pendingOffer, offersMade, features)
    }

    constructor (features: Features)
      ensures View() == Init(features).policy
      ensures fresh(session) && fresh(capabilities)
    {
      this.features := features;
      session := new SessionStateMachine();
      capabilities := new FillCapabilityStore();
      pendingOffer, offersMade := None, 0;
    }

    method LockAll(reason: LockReason)
      modifies this, session, capabilities
      ensures View() == old(View()).LockAll(reason)
    {
      session.Lock(reason);
      capabilities.InvalidateAll();
      pendingOffer := None;
    }

    method HandleContentMessage(message: Content, now: int)
      modifies this, session, capabilities
      ensures View() == HandleContent(old(View()), message, now)
    {
      session.EnsureActive(now);
      match message {
        case Ignored =>
        case CancelOffer(tabId) =>
          if pendingOffer.Some? && pendingOffer.value.tabId == tabId {
            pendingOffer := None;
          }
        case Request(tabId, origin, documentId, pageMatches, formAction, decision) =>
          if !session.active || !features.vault || !pageMatches || decision.None? {
            return;
          }
          if documentId.None? {
            pendingOffer := None;
            return;
          }
          var action := if formAction.Some? then formAction.value else origin;
          pendingOffer := Some(Offer(offersMade, tabId, origin, documentId.value, action, decision.value));
          offersMade := offersMade + 1;
      }
    }

    method GrantCandidates(offer: Offer, requestId: Id, now: int) returns (effect: Effect)
      modifies this, session, capabilities
      ensures Outcome(View(), None, effect) == FillPolicy.GrantCandidates(old(View()), offer, requestId, now)
    {
      var binding := offer.Bind(session.generation);
      capabilities.Grant(requestId, binding, now);
      return Granted(requestId, Capability(binding, now));
    }

    method HandlePopupMessage(message: Popup, now: int) returns (next: Option<Task>, effect: Effect)
      modifies this, session, capabilities
      ensures Outcome(View(), next, effect) == HandlePopup(old(View()), message, now)
    {
      session.EnsureActive(now);
      session.NoteTrustedPopupActivity(now);
      next, effect := None, NoEffect;
      match message {
        case ReadOnly =>
        case LockNow => LockAll(Explicit);
        case Logout =>
          if features.vault && features.logout {
            next := Some(LoggingOut);
          } else {
            LockAll(Explicit);
          }
        case RequestCandidates(requestId) =>
          if session.active && features.vault && pendingOffer.Some? {
            if features.checkFresh {
              next := Some(CheckingFresh(pendingOffer.value));
            } else {
              effect := GrantCandidates(pendingOffer.value, requestId, now);
            }
          }
        case Unlock =>
          if features.vault && features.unlock {
            if session.active {
              LockAll(Explicit);
            }
            next := Some(Unlocking);
          }
        case FillSelected(requestId, itemId) =>
          if session.active && features.vault && pendingOffer.Some? && itemId in pendingOffer.value.candidates {
            next := Some(AskingTab(requestId, itemId, pendingOffer.value, session.generation));
          }
      }
    }

    method FreshnessAnswered(offer: Offer, isFresh: bool, requestId: Id, now: int) returns (effect: Effect)
      modifies this, session, capabilities
      ensures Outcome(View(), None, effect) == AfterFresh(old(View()), offer, isFresh, requestId, now)
    {
      if !isFresh || !session.active || pendingOffer != Some(offer) {
        return NoEffect;
      }
      effect := GrantCandidates(offer, requestId, now);
    }

    method TabAnswered(requestId: Id, itemId: Id, offer: Offer, generation: int, tab: Option<(int, Origin)>, now: int)
      returns (next: Option<Task>)
      modifies this, session, capabilities
      ensures Outcome(View(), next, NoEffect) == AfterTab(old(View()), requestId, itemId, offer, generation, tab, now)
    {
      if !session.active || session.generation != generation {
        return None;
      }
      if tab.None? || tab.value.0 != offer.tabId || tab.value.1 != offer.origin {
        var _ := capabilities.Consume(requestId, Binding(-1, -1, "", "", ""), now);
        return None;
      }
      var consumed := capabilities.Consume(requestId, offer.Bind(session.generation), now);
      return if consumed.Accepted? then Some(FetchingFields(requestId, itemId, offer, generation, now)) else None;
    }

    method FieldsAnswered(requestId: Id, itemId: Id, offer: Offer, generation: int, consumedAt: int, found: bool)
      returns (next: Option<Task>, effect: Effect)
      ensures Outcome(View(), next, effect) == AfterFields(View(), requestId, itemId, offer, generation, consumedAt, found)
    {
      if session.generation != generation || !found {
        return None, NoEffect;
      }
      var fill := Fill(requestId, itemId, offer.serial, offer.tabId, offer.documentId, offer.origin, offer.formActionOrigin, generation, consumedAt);
      return Some(Sending(session.generation)), Released(fill);
    }

    method SendAnswered(generation: int)
      modifies this, session, capabilities
      ensures View() == AfterSend(old(View()), generation)
    {
      pendingOffer := None;
      if session.generation != generation {
        LockAll(Explicit);
      }
    }
  }
}
