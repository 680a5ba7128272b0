/**
 Publishing key bundles (`publish_key_bundle`, `apps/backend-rust/src/account.rs`): a
 compare-and-swap on the version of the account's row. A transaction that finds a row holds
 its lock to the end and is one step. One that finds none has locked nothing, so its INSERT
 is a step of its own, and other calls may commit before it.
 */
module KeyBundles {
  import opened Wrappers

  type Id = string
  type Bundle = seq<int>

  const MAX_VERSION: int := 2_147_483_647
  const MAX_ROUNDS: nat := 5

  datatype Row = Row(bundle: Bundle, version: int)

  datatype Outcome = Created | Idempotent | Replaced | Conflict(currentVersion: Option<int>) | RowNotFound
  {
    predicate Success() { Created? || Idempotent? || Replaced? }
  }

  datatype Phase = Selecting | Inserting | Returned(outcome: Outcome)

  /** One call: its arguments, the round of its loop, and where it stands. */
  datatype Call = Call(account: Id, bundle: Bundle, version: int, round: nat, phase: Phase)
  {
    function Return(o: Outcome): Call { this.(phase := Returned(o)) }
  }

  /** A committed write. */
  datatype Commit = Commit(account: Id, version: int, bundle: Bundle)

  datatype State = State(rows: map<Id, Row>, calls: map<nat, Call>, commits: seq<Commit>)

  const INIT := State(map[], map[], [])

  /** `SELECT ... FOR UPDATE`, and the rest of the transaction when it locked a row. */
  function Select(rows: map<Id, Row>, c: Call): (map<Id, Row>, Call) {
    if c.account !in rows then
      (rows, if c.version != 1 then c.Return(Conflict(None)) else c.(phase := Inserting))
    else
      var existing := rows[c.account];
      if existing.version == c.version then
        (rows, c.Return(if existing.bundle == c.bundle then Idempotent else Conflict(Some(existing.version))))
      else if c.version != existing.version + 1 then
        (rows, c.Return(Conflict(Some(existing.version))))
      else
        (rows[c.account := Row(c.bundle, c.version)], c.Return(Replaced))
  }

  /** The INSERT; a unique violation starts the next round, if there is one. */
  function Insert(rows: map<Id, Row>, c: Call): (map<Id, Row>, Call) {
    if c.account !in rows then
      (rows[c.account := Row(c.bundle, c.version)], c.Return(Created))
    else if c.round < MAX_ROUNDS then
      (rows, c.(round := c.round + 1, phase := Selecting))
    else
      (rows, c.Return(RowNotFound))
  }

  datatype Event =
    | Begin(id: nat, account: Id, bundle: Bundle, version: int)
    | Advance(id: nat)
    | DeleteRow(account: Id)

  predicate Wrote(c: Call) { c.phase == Returned(Created) || c.phase == Returned(Replaced) }

  function Step(s: State, e: Event): State {
    match e
    case Begin(id, account, bundle, version) =>
      if id in s.calls || !(1 <= version <= MAX_VERSION) then s
      else s.(calls := s.calls[id := Call(account, bundle, version, 1, Selecting)])
    case DeleteRow(account) => s.(rows := s.rows - {account})
    case Advance(id) =>
      if id !in s.calls || s.calls[id].phase.Returned? then s
      else
        var c := s.calls[id];
        var (rows, next) := if c.phase.Selecting? then Select(s.rows, c) else Insert(s.rows, c);
        State(rows, s.calls[id := next], if Wrote(next) then s.commits + [Commit(c.account, c.version, c.bundle)] else s.commits)
  }

  function Run(s: State, events: seq<Event>): State
    decreases |events|
  {
    if events == [] then s else Run(Step(s, events[0]), events[1..])
  }
}

/** The table in place: each method is one transaction of the retry loop. */
module KeyBundleStore {
  import opened Wrappers
  import opened KeyBundles

  class Store {
    var rows: map<Id, Row>

    constructor ()
      ensures rows == map[]
    {
      rows := map[];
    }

    method SelectForUpdate(c: Call) returns (next: Call)
      modifies this
      ensures (rows, next) == Select(old(rows), c)
    {
      if c.account !in rows {
        if c.version != 1 {
          return c.Return(Conflict(None));
        }
        return c.(phase := Inserting);
      }
      var existing := rows[c.account];
      if existing.version == c.version {
        return c.Return(if existing.bundle == c.bundle then Idempotent else Conflict(Some(existing.version)));
      }
      if c.version != existing.version + 1 {
        return c.Return(Conflict(Some(existing.version)));
      }
      rows := rows[c.account := Row(c.bundle, c.version)];
      return c.Return(Replaced);
    }

    method InsertRow(c: Call) returns (next: Call)
      modifies this
      ensures (rows, next) == Insert(old(rows), c)
    {
      if c.account in rows {
        return if c.round < MAX_ROUNDS then c.(round := c.round + 1, phase := Selecting) else c.Return(RowNotFound);
      }
      rows := rows[c.account := Row(c.bundle, c.version)];
      return c.Return(Created);
    }

    /** Other calls leave this row of the account. */
    method Interfere(account: Id, row: Option<Row>)
      modifies this
      ensures RowOf(rows, account) == row && SameElsewhere(old(rows), rows, account)
    {
      rows := if row.Some? then rows[account := row.value] else rows - {account};
    }

    /** One round: it is lost, or it answers. None stands for the next turn of the loop. */
    method Round(c: Call, before: Option<Row>, between: Option<Row>) returns (answer: Option<Outcome>)
      requires c.phase.Selecting?
      modifies this
      ensures SameElsewhere(old(rows), rows, c.account)
      ensures answer == if LosesRace(before, between, c.version) then None else Some(Decision(before, c.bundle, c.version))
      ensures answer.Some? && answer.value.Success() ==> RowOf(rows, c.account) == Some(Row(c.bundle, c.version))
      ensures answer.Some? && answer.value.Conflict? ==> RowOf(rows, c.account) == before
    {
      Interfere(c.account, before);
      var next := SelectForUpdate(c);
      if next.phase.Inserting? {
        Interfere(c.account, between);
        next := InsertRow(next);
      }
      return if next.phase.Returned? && next.phase.outcome != RowNotFound then Some(next.phase.outcome) else None;
    }

    /** The whole loop, against anything that other calls may do to the account's row: they leave
        `before(k)` at the SELECT of round k, and `between(k)` at its INSERT. */
    method PublishKeyBundle(account: Id, bundle: Bundle, version: int, before: nat -> Option<Row>, between: nat -> Option<Row>)
      returns (outcome: Outcome, rounds: nat)
      requires 1 <= version <= MAX_VERSION
      modifies this
      ensures 1 <= rounds <= MAX_ROUNDS && SameElsewhere(old(rows), rows, account)
      ensures forall k | 1 <= k < rounds :: LosesRace(before(k), between(k), version)
      ensures outcome == RowNotFound <==> forall k | 1 <= k <= MAX_ROUNDS :: LosesRace(before(k), between(k), version)
      ensures outcome != RowNotFound ==>
                !LosesRace(before(rounds), between(rounds), version) && outcome == Decision(before(rounds), bundle, version)
      ensures outcome.Success() ==> RowOf(rows, account) == Some(Row(bundle, version))
      ensures outcome.Conflict? ==> RowOf(rows, account) == before(rounds)
      ensures (forall k | 1 <= k < MAX_ROUNDS && between(k).Some? :: before(k + 1).Some?) ==> rounds <= 2 && outcome != RowNotFound
    {
      hide LosesRace, Decision, SameElsewhere, RowOf;
      SameElsewhereTransitive(rows, rows, rows, account);
      rounds := 0;
      while rounds < MAX_ROUNDS
        invariant rounds <= MAX_ROUNDS && SameElsewhere(old(rows), rows, account)
        invariant forall k | 1 <= k <= rounds :: LosesRace(before(k), between(k), version)
      {
        rounds := rounds + 1;
        ghost var was := rows;
        var answer := Round(Call(account, bundle, version, rounds, Selecting), before(rounds), between(rounds));
        SameElsewhereTransitive(old(rows), was, rows, account);
        if answer.Some? {
          NoRaceAfterARow(before, between, version, rounds);
          DecisionIsAnswer(before(rounds), bundle, version);
          return answer.value, rounds;
        }
      }
      NoRaceAfterARow(before, between, version, rounds);
      return RowNotFound, rounds;
    }
  }

  function RowOf(rows: map<Id, Row>, account: Id): Option<Row> {
    if account in rows then Some(rows[account]) else None
  }

  ghost predicate SameElsewhere(before: map<Id, Row>, after: map<Id, Row>, account: Id) {
    forall other | other != account :: RowOf(after, other) == RowOf(before, other)
  }

  /** A first publication found no row, and then another call's. */
  predicate LosesRace(before: Option<Row>, between: Option<Row>, version: int) {
    before.None? && version == 1 && between.Some?
  }

  /** Success for the next version, or for the stored bytes again; a conflict names the stored version. */
  function Decision(row: Option<Row>, bundle: Bundle, version: int): Outcome {
    if row.None? then (if version == 1 then Created else Conflict(None))
    else if row.value == Row(bundle, version) then Idempotent
    else if row.value.version + 1 == version then Replaced
    else Conflict(Some(row.value.version))
  }

  lemma SameElsewhereTransitive(a: map<Id, Row>, b: map<Id, Row>, c: map<Id, Row>, account: Id)
    ensures SameElsewhere(a, a, account)
    ensures SameElsewhere(a, b, account) && SameElsewhere(b, c, account) ==> SameElsewhere(a, c, account)
  {
  }

  lemma DecisionIsAnswer(row: Option<Row>, bundle: Bundle, version: int)
    ensures Decision(row, bundle, version) != RowNotFound
  {
  }

  /** Once a row is there and stays, no further round is lost. */
  lemma NoRaceAfterARow(before: nat -> Option<Row>, between: nat -> Option<Row>, version: int, rounds: nat)
    requires 1 <= rounds <= MAX_ROUNDS && forall k | 1 <= k < rounds :: LosesRace(before(k), between(k), version)
    ensures (forall k | 1 <= k < MAX_ROUNDS && between(k).Some? :: before(k + 1).Some?) ==>
              rounds <= 2 && !(LosesRace(before(1), between(1), version) && LosesRace(before(2), between(2), version))
  {
    if rounds > 1 {
      assert LosesRace(before(1), between(1), version);
    }
    if rounds > 2 {
      assert LosesRace(before(2), between(2), version);
    }
    if forall k | 1 <= k < MAX_ROUNDS && between(k).Some? :: before(k + 1).Some? {
      assert between(1).Some? ==> before(1 + 1).Some?;
    }
  }
}
