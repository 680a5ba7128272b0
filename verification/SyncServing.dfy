/** The server's request handlers and their tables (`apps/backend-rust/src/sync.rs`). */
module SyncServing {
  import opened Wrappers
  import opened SyncModel
  import opened SyncFeed

  /** The rows of the vault from above `after` up to `last`, in order. */
  ghost predicate Listed(t: Tables, vaultId: Id, after: int, rows: seq<Row>, last: int) {
    && last == PageOf(rows, after).nextCursor && after <= last
    && (forall j | 0 <= j < |rows| :: IsFeedRow(t, vaultId, after, rows[j]) && rows[j].sequence <= last)
    && (forall i, j | 0 <= i < j < |rows| :: rows[i].sequence < rows[j].sequence)
    && (forall key | key in t.items && key.vaultId == vaultId && after < t.items[key].sequence <= last :: t.items[key] in rows)
  }

  lemma ListedStep(t: Tables, vaultId: Id, after: int, rows: seq<Row>, last: int, key: Key)
    requires Keyed(t) && Listed(t, vaultId, after, rows, last) && key in Above(t, vaultId, last)
    requires forall other | other in Above(t, vaultId, last) :: t.items[key].sequence <= t.items[other].sequence
    ensures Listed(t, vaultId, after, rows + [t.items[key]], t.items[key].sequence)
  {
    var more := rows + [t.items[key]];
    forall other | other in t.items && other.vaultId == vaultId && after < t.items[other].sequence <= t.items[key].sequence
      ensures t.items[other] in more
    {
      if last < t.items[other].sequence {
        assert other in Above(t, vaultId, last);
        assert other == key && more[|rows|] == t.items[key];
      } else {
        assert t.items[other] in rows;
      }
    }
  }

  lemma ListedEnd(t: Tables, vaultId: Id, after: int, limit: nat, rows: seq<Row>, last: int)
    requires Listed(t, vaultId, after, rows, last) && |rows| <= limit
    requires |rows| == limit || Above(t, vaultId, last) == {}
    ensures IsFeedPage(t, vaultId, after, limit, rows)
  {
    forall key | key in t.items && key.vaultId == vaultId && t.items[key].sequence > after
      ensures t.items[key] in rows || |rows| == limit
    {
      assert key in Above(t, vaultId, last) || t.items[key].sequence <= last;
    }
  }

  class SyncServer {
    var vaults: map<Id, Id>
    var items: map<Key, Row>
    var outcomes: map<RequestId, Reply>
    var sequence: int

    function View(): Tables
      reads this
    {
      Tables(vaults, items, outcomes, sequence)
    }

    constructor ()
      ensures View() == EMPTY_TABLES
    {
      vaults, items, outcomes, sequence := map[], map[], map[], 0;
    }

    method EnsureVaultOwnership(account: Id, vaultId: Id) returns (owned: bool)
      modifies this`vaults
      ensures owned == MayWrite(old(View()), account, vaultId)
      ensures vaults == if vaultId in old(vaults) then old(vaults) else old(vaults)[vaultId := account]
    {
      if vaultId !in vaults {
        vaults := vaults[vaultId := account];
      }
      owned := vaults[vaultId] == account;
    }

    method UpsertItem(m: Mutation, revision: int, now: Time) returns (row: Row)
      requires revision == View().CurrentRevision(m.At()) + 1
      modifies this`items, this`sequence
      ensures row == UpsertedRow(old(View()), m, now)
      ensures items == old(items)[m.At() := row] && sequence == row.sequence
    {
      sequence := sequence + 1;
      var created := now;
      if m.At() in items {
        sequence := sequence + 1;
        created := items[m.At()].record.createdAt;
      }
      row := Row(ItemRecord(m.itemId, m.vaultId, m.ciphertext, m.envelopeVersion, revision, m.deleted, created, now), sequence);
      items := items[m.At() := row];
    }

    /** One transaction; the 404 and 400 branches roll the vault insertion back. */
    method ApplyMutation(account: Id, m: Mutation, now: Time) returns (reply: Reply)
      modifies this
      ensures (View(), reply) == SyncModel.ApplyMutation(old(View()), account, m, now)
    {
      var id := RequestId(account, m.mutationId);
      if id in outcomes {
        return outcomes[id];
      }
      var before := vaults;
      var owned := EnsureVaultOwnership(account, m.vaultId);
      if !owned {
        vaults := before;
        return NotFound;
      }
      var current := if m.At() in items then items[m.At()].record.revision else 0;
      if m.baseRevision != current {
        if m.At() !in items {
          vaults := before;
          return BadRequest;
        }
        reply := Conflict(m.mutationId, items[m.At()].record, m);
      } else {
        var row := UpsertItem(m, current + 1, now);
        reply := Created(row.record);
      }
      outcomes := outcomes[id := reply];
      assert vaults == before[m.vaultId := account];
    }

    /** Rows above the cursor in sequence order, least first. */
    method ListChanges(vaultId: Id, after: int, limit: nat) returns (rows: seq<Row>)
      requires Keyed(View())
      ensures IsFeedPage(View(), vaultId, after, limit, rows)
    {
      rows := [];
      var last := after;
      while |rows| < limit && Above(View(), vaultId, last) != {}
        invariant |rows| <= limit
        invariant Listed(View(), vaultId, after, rows, last)
        decreases limit - |rows|
      {
        var key := Least(Above(View(), vaultId, last));
        ListedStep(View(), vaultId, after, rows, last, key);
        rows := rows + [items[key]];
        last := items[key].sequence;
      }
      ListedEnd(View(), vaultId, after, limit, rows, last);
    }

    method Least(keys: set<Key>) returns (least: Key)
      requires keys != {} && keys <= items.Keys
      ensures least in keys && forall key | key in keys :: items[least].sequence <= items[key].sequence
    {
      least :| least in keys;
      var rest := keys - {least};
      while rest != {}
        invariant least in keys && rest <= keys
        invariant forall key | key in keys - rest :: items[least].sequence <= items[key].sequence
      {
        var key :| key in rest;
        rest := rest - {key};
        if items[key].sequence < items[least].sequence {
          least := key;
        }
      }
    }

    /** `get_changes`, with the default limit; None is the 404. */
    method GetChanges(account: Id, vaultId: Id, cursor: Option<int>) returns (page: Option<Page>, ghost rows: seq<Row>)
      requires Keyed(View())
      ensures page.Some? <==> vaultId in View().vaults && View().vaults[vaultId] == account
      ensures page.Some? ==> IsFeedPage(View(), vaultId, After(cursor), FEED_LIMIT, rows) && page.value == PageOf(rows, After(cursor))
    {
      rows := [];
      if !Owns(View(), account, vaultId) {
        return None, rows;
      }
      var listed := ListChanges(vaultId, After(cursor), FEED_LIMIT);
      rows := listed;
      page := Some(PageOf(listed, After(cursor)));
    }
  }
}
