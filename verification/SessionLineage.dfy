/**
 Login sessions and devices (`apps/backend-rust/src/auth/sessions.rs` and
 `apps/backend-rust/src/devices.rs`). One transaction is one step; creating a legacy
 device and binding the session to it are two. Session ids, device ids and token hashes
 are fresh: they are drawn at random, and the tables hold them under unique keys.
 */
module SessionTables {
  import opened Wrappers

  type Id = string
  type Hash = string
  type Time = int

  datatype Provenance = OpaqueLogin | Refresh

  datatype Session = Session(
    account: Id, tokenHash: Hash, expiresAt: Time, revokedAt: Option<Time>, issuedVia: Provenance, device: Option<Id>)
  {
    predicate Live() { revokedAt.None? }
  }

  datatype Device = Device(account: Id, revokedAt: Option<Time>)

  /** `tokens` is the unique index on `token_hash`. */
  datatype Tables = Tables(sessions: map<Id, Session>, devices: map<Id, Device>, tokens: map<Hash, Id>)
  {
    predicate UnrevokedDevice(id: Id) { id in devices && devices[id].revokedAt.None? }
  }

  const EMPTY_TABLES := Tables(map[], map[], map[])

  datatype AuthSession = AuthSession(sessionId: Id, account: Id, device: Option<Id>, issuedVia: Provenance)

  function InsertSession(t: Tables, id: Id, session: Session): Tables {
    t.(sessions := t.sessions[id := session], tokens := t.tokens[session.tokenHash := id])
  }

  predicate IsFresh(t: Tables, id: Id, hash: Hash) { id !in t.sessions && hash !in t.tokens }

  function Issue(t: Tables, account: Id, id: Id, hash: Hash, expiresAt: Time): Tables {
    InsertSession(t, id, Session(account, hash, expiresAt, None, OpaqueLogin, None))
  }

  /** Absent, revoked, bound to a revoked device and expired are not told apart. */
  function Resolve(t: Tables, hash: Hash, now: Time): Option<AuthSession> {
    if hash !in t.tokens || t.tokens[hash] !in t.sessions then None
    else
      var s := t.sessions[t.tokens[hash]];
      if s.revokedAt.Some? then None
      else if s.device.Some? && s.device.value in t.devices && t.devices[s.device.value].revokedAt.Some? then None
      else if s.expiresAt <= now then None
      else Some(AuthSession(t.tokens[hash], s.account, s.device, s.issuedVia))
  }

  /** The UPDATE is unconditional: it does not look at the session's or the device's state. */
  function Bind(t: Tables, id: Id, device: Id): Tables {
    if id in t.sessions then t.(sessions := t.sessions[id := t.sessions[id].(device := Some(device))]) else t
  }

  /** The guard of the rotating UPDATE. */
  predicate MayRotate(t: Tables, id: Id, now: Time) {
    && id in t.sessions
    && t.sessions[id].revokedAt.None?
    && t.sessions[id].expiresAt > now
    && t.sessions[id].device.Some?
    && t.UnrevokedDevice(t.sessions[id].device.value)
  }

  function RevokeOne(t: Tables, id: Id, now: Time): Tables {
    if id in t.sessions then t.(sessions := t.sessions[id := t.sessions[id].(revokedAt := Some(now))]) else t
  }

  function Rotate(t: Tables, id: Id, next: Id, hash: Hash, now: Time, expiresAt: Time): Tables {
    if !MayRotate(t, id, now) then t
    else
      var s := t.sessions[id];
      InsertSession(RevokeOne(t, id, now), next, Session(s.account, hash, expiresAt, None, Provenance.Refresh, s.device))
  }

  function RevokeIf(s: Session, doomed: bool, now: Time): Session {
    if doomed && s.revokedAt.None? then s.(revokedAt := Some(now)) else s
  }

  function RevokeAll(t: Tables, account: Id, now: Time): Tables {
    t.(sessions := map id | id in t.sessions :: RevokeIf(t.sessions[id], t.sessions[id].account == account, now))
  }

  function InsertDevice(t: Tables, id: Id, account: Id): Tables {
    t.(devices := t.devices[id := Device(account, None)])
  }

  predicate MayEnroll(t: Tables, id: Id, now: Time) {
    && id in t.sessions
    && t.sessions[id].revokedAt.None?
    && t.sessions[id].expiresAt > now
    && t.sessions[id].device.None?
    && t.sessions[id].issuedVia.OpaqueLogin?
  }

  function Enroll(t: Tables, id: Id, device: Id, now: Time): Tables {
    if MayEnroll(t, id, now) then Bind(InsertDevice(t, device, t.sessions[id].account), id, device) else t
  }

  /** The device row answers the guarded UPDATE. */
  predicate MayRevokeDevice(t: Tables, account: Id, device: Id) {
    t.UnrevokedDevice(device) && t.devices[device].account == account
  }

  function RevokeDevice(t: Tables, account: Id, device: Id, now: Time): Tables {
    if !MayRevokeDevice(t, account, device) then t
    else t.(
      devices := t.devices[device := t.devices[device].(revokedAt := Some(now))],
      sessions := map id | id in t.sessions :: RevokeIf(t.sessions[id], t.sessions[id].device == Some(device), now))
  }

  // Runs.

  datatype Event =
    | Login(account: Id, id: Id, hash: Hash, expiresAt: Time)
    | Refreshing(id: Id, next: Id, hash: Hash, now: Time, expiresAt: Time)
    | Logout(id: Id, now: Time)
    | LogoutEverywhere(account: Id, now: Time)
    | EnrollBearer(id: Id, device: Id, now: Time)
    | Authenticate(id: Id, now: Time)
    | CreateLegacy(id: Id, device: Id)
    | BindLegacy(id: Id, device: Id)
    | DeviceRevocation(account: Id, device: Id, now: Time)

  /** The tables and which session each rotation came from; the legacy enrolments whose session was
      authenticated, and those whose device was created but not bound yet. */
  datatype State = State(tables: Tables, predecessor: map<Id, Id>, authenticated: multiset<Id>, unbound: set<(Id, Id)>)

  const INIT := State(EMPTY_TABLES, map[], multiset{}, {})

  /** Fresh ids; a legacy enrolment of a session that resolved, and a bind only after its creation. */
  predicate Enabled(s: State, e: Event) {
    match e
    case Login(_, id, hash, _) => IsFresh(s.tables, id, hash)
    case Refreshing(_, next, hash, _, _) => IsFresh(s.tables, next, hash)
    case EnrollBearer(_, device, _) => device !in s.tables.devices
    case Authenticate(id, now) => id in s.tables.sessions && Resolve(s.tables, s.tables.sessions[id].tokenHash, now).Some?
    case CreateLegacy(id, device) => id in s.authenticated && id in s.tables.sessions && device !in s.tables.devices
    case BindLegacy(id, device) => (id, device) in s.unbound
    case _ => true
  }

  function Step(s: State, e: Event): State {
    if !Enabled(s, e) then s
    else match e
      case Login(account, id, hash, expiresAt) => s.(tables := Issue(s.tables, account, id, hash, expiresAt))
      case Refreshing(id, next, hash, now, expiresAt) =>
        if !MayRotate(s.tables, id, now) then s
        else s.(tables := Rotate(s.tables, id, next, hash, now, expiresAt), predecessor := s.predecessor[next := id])
      case Logout(id, now) => s.(tables := RevokeOne(s.tables, id, now))
      case LogoutEverywhere(account, now) => s.(tables := RevokeAll(s.tables, account, now))
      case EnrollBearer(id, device, now) => s.(tables := Enroll(s.tables, id, device, now))
      case Authenticate(id, now) => s.(authenticated := s.authenticated + multiset{id})
      case CreateLegacy(id, device) =>
        s.(tables := InsertDevice(s.tables, device, s.tables.sessions[id].account),
           authenticated := s.authenticated - multiset{id}, unbound := s.unbound + {(id, device)})
      case BindLegacy(id, device) => s.(tables := Bind(s.tables, id, device), unbound := s.unbound - {(id, device)})
      case DeviceRevocation(account, device, now) => s.(tables := RevokeDevice(s.tables, account, device, now))
  }

  function Run(s: State, events: seq<Event>): State
    decreases |events|
  {
    if events == [] then s else Run(Step(s, events[0]), events[1..])
  }
}

/** The transactions on the tables in place. */
module SessionStore {
  import opened Wrappers
  import opened SessionTables

  class Store {
    var sessions: map<Id, Session>
    var devices: map<Id, Device>
    var tokens: map<Hash, Id>

    ghost function View(): Tables
      reads this
    {
      Tables(sessions, devices, tokens)
    }

    constructor ()
      ensures View() == EMPTY_TABLES
    {
      sessions, devices, tokens := map[], map[], map[];
    }

    method IssueSession(account: Id, id: Id, hash: Hash, expiresAt: Time)
      modifies this
      ensures View() == Issue(old(View()), account, id, hash, expiresAt)
    {
      sessions := sessions[id := Session(account, hash, expiresAt, None, OpaqueLogin, None)];
      tokens := tokens[hash := id];
    }

    method ResolveSession(hash: Hash, now: Time) returns (r: Option<AuthSession>)
      ensures r == Resolve(View(), hash, now)
    {
      if hash !in tokens || tokens[hash] !in sessions {
        return None;
      }
      var s := sessions[tokens[hash]];
      if s.revokedAt.Some? {
        return None;
      }
      if s.device.Some? && s.device.value in devices && devices[s.device.value].revokedAt.Some? {
        return None;
      }
      if s.expiresAt <= now {
        return None;
      }
      return Some(AuthSession(tokens[hash], s.account, s.device, s.issuedVia));
    }

    method BindSessionToDevice(id: Id, device: Id)
      modifies this
      ensures View() == Bind(old(View()), id, device)
    {
      if id in sessions {
        sessions := sessions[id := sessions[id].(device := Some(device))];
      }
    }

    method RotateSession(id: Id, next: Id, hash: Hash, now: Time, expiresAt: Time) returns (issued: bool)
      modifies this
      ensures issued == MayRotate(old(View()), id, now)
      ensures View() == Rotate(old(View()), id, next, hash, now, expiresAt)
    {
      if !MayRotate(Tables(sessions, devices, tokens), id, now) {
        return false;
      }
      var s := sessions[id];
      sessions := sessions[id := s.(revokedAt := Some(now))];
      sessions := sessions[next := Session(s.account, hash, expiresAt, None, Provenance.Refresh, s.device)];
      tokens := tokens[hash := next];
      return true;
    }

    method RevokeSession(id: Id, now: Time)
      modifies this
      ensures View() == RevokeOne(old(View()), id, now)
    {
      if id in sessions {
        sessions := sessions[id := sessions[id].(revokedAt := Some(now))];
      }
    }

    method RevokeAllSessionsForAccount(account: Id, now: Time)
      modifies this
      ensures View() == RevokeAll(old(View()), account, now)
    {
      sessions := map id | id in sessions :: RevokeIf(sessions[id], sessions[id].account == account, now);
    }

    method CreateLegacyDevice(account: Id, device: Id)
      modifies this
      ensures View() == InsertDevice(old(View()), device, account)
    {
      devices := devices[device := Device(account, None)];
    }

    method EnrollBearerSessionDevice(id: Id, device: Id, now: Time) returns (enrolled: bool)
      modifies this
      ensures enrolled == MayEnroll(old(View()), id, now)
      ensures View() == Enroll(old(View()), id, device, now)
    {
      if id !in sessions {
        return false;
      }
      var s := sessions[id];
      if s.revokedAt.Some? || s.expiresAt <= now || s.device.Some? || s.issuedVia != OpaqueLogin {
        return false;
      }
      devices := devices[device := Device(s.account, None)];
      sessions := sessions[id := s.(device := Some(device))];
      return true;
    }

    method RevokeDevice(account: Id, device: Id, now: Time) returns (revoked: bool)
      modifies this
      ensures revoked == MayRevokeDevice(old(View()), account, device)
      ensures View() == SessionTables.RevokeDevice(old(View()), account, device, now)
    {
      if device !in devices || devices[device].account != account || devices[device].revokedAt.Some? {
        return false;
      }
      devices := devices[device := devices[device].(revokedAt := Some(now))];
      sessions := map id | id in sessions :: RevokeIf(sessions[id], sessions[id].device == Some(device), now);
      return true;
    }
  }
}
