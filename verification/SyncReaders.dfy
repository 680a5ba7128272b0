/** The second reader of the change feed, and what reachable clients may rely on. */
module SyncReaders {
  import opened Wrappers
  import opened SyncModel
  import opened SyncLedger
  import opened SyncWorld
  import opened SyncInvariant
  import opened SyncPreservation
  import opened SyncFeed
  import opened SyncServing
  import opened SyncEngine
  import SyncTheorems

  /** Every reachable client meets the preconditions of `pull`. */
  lemma ReachableClientsMayPull(accounts: map<nat, Id>, run: seq<Event>, c: nat)
    requires c in accounts
    ensures var w := Run(accounts, run);
            && c in w.clients
            && LedgerInv(w.ledger)
            && Synced(w.ledger, w.clients[c].items, w.clients[c].cursors)
  {
    SyncTheorems.RunKeepsInv(accounts, run);
    var w := Run(accounts, run);
    assert ClientInv(w, w.clients[c]);
  }

  datatype ItemEntry = ItemEntry(itemId: Id, revision: int, data: string)

  /** The entries of the live, openable rows of a vault at or below the cursor. */
  ghost predicate LoadedUpTo(t: Tables, vaultId: Id, open: ItemRecord -> Option<string>, cursor: int, entries: map<Id, ItemEntry>) {
    && (forall id | id in entries ::
          var key := Key(vaultId, id);
          && key in t.items && t.items[key].sequence <= cursor
          && !t.items[key].record.deleted
          && open(t.items[key].record) == Some(entries[id].data)
          && entries[id].itemId == id && entries[id].revision == t.items[key].record.revision)
    && (forall key | key in t.items && key.vaultId == vaultId && t.items[key].sequence <= cursor
                     && !t.items[key].record.deleted && open(t.items[key].record).Some? ::
          key.itemId in entries)
  }

  /** The entries after one record of a page. */
  function WithRecord(open: ItemRecord -> Option<string>, record: ItemRecord, entries: map<Id, ItemEntry>): map<Id, ItemEntry> {
    if record.deleted then
      entries - {record.itemId}
    else if open(record).Some? then
      entries[record.itemId := ItemEntry(record.itemId, record.revision, open(record).value)]
    else
      entries
  }

  lemma RecordKeepsLoaded(t: Tables, vaultId: Id, open: ItemRecord -> Option<string>, last: int, row: Row, entries: map<Id, ItemEntry>)
    requires LoadedUpTo(t, vaultId, open, last, entries)
    requires last < row.sequence && row.record.vaultId == vaultId
    requires row.record.At() in t.items && t.items[row.record.At()] == row
    requires forall key | key in t.items && key.vaultId == vaultId && last < t.items[key].sequence <= row.sequence ::
               key == row.record.At()
    ensures LoadedUpTo(t, vaultId, open, row.sequence, WithRecord(open, row.record, entries))
  {
    assert row.record.At() == Key(vaultId, row.record.itemId);
    assert row.record.itemId !in entries;
  }

  class ExtensionVaultManager {
    const open: ItemRecord -> Option<string>

    constructor (open: ItemRecord -> Option<string>)
      ensures this.open == open
    {
      this.open := open;
    }

    /** `#loadAllItems` terminates with exactly the non-deleted rows that open; a 404 on
        the first page is an empty vault. */
    method LoadAllItems(server: SyncServer, ghost l: Ledger, account: Id, vaultId: Id) returns (entries: map<Id, ItemEntry>)
      requires LedgerInv(l) && l.tables == server.View()
      ensures !Owns(l.tables, account, vaultId) ==> entries == map[]
      ensures Owns(l.tables, account, vaultId) ==>
                && (forall id | id in entries :: entries[id].itemId == id)
                && (forall id ::
                      id in entries <==>
                      && Key(vaultId, id) in l.tables.items
                      && !l.tables.items[Key(vaultId, id)].record.deleted
                      && open(l.tables.items[Key(vaultId, id)].record).Some?)
                && (forall id | id in entries ::
                      var record := l.tables.items[Key(vaultId, id)].record;
                      entries[id].revision == record.revision && Some(entries[id].data) == open(record))
    {
      KeyedRows(l);
      FirstCursorInv(l, map[], vaultId);
      entries := map[];
      var cursor: Option<int> := None;
      while true
        invariant LoadedUpTo(l.tables, vaultId, open, After(cursor), entries)
        invariant cursor.Some? ==> Owns(l.tables, account, vaultId)
        invariant cursor.None? ==> entries == map[]
        decreases |Above(l.tables, vaultId, After(cursor))|
      {
        var page, rows := server.GetChanges(account, vaultId, cursor);
        if page.None? {
          return;
        }
        PageTakesRows(l.tables, vaultId, After(cursor), FEED_LIMIT, rows);
        if page.value.changes == [] {
          assert |Above(l.tables, vaultId, After(cursor))| == 0;
          break;
        }
        entries := LoadPage(l.tables, vaultId, After(cursor), rows, page.value, entries);
        cursor := Some(page.value.nextCursor);
      }
      forall key | key in l.tables.items && key.vaultId == vaultId
        ensures l.tables.items[key].sequence <= After(cursor)
      {
        assert key !in Above(l.tables, vaultId, After(cursor));
      }
      forall id | Key(vaultId, id) in l.tables.items
        ensures l.tables.items[Key(vaultId, id)].sequence <= After(cursor)
      {
      }
    }

    method LoadPage(ghost t: Tables, vaultId: Id, after: int, ghost rows: seq<Row>, page: Page, loaded: map<Id, ItemEntry>)
      returns (entries: map<Id, ItemEntry>)
      requires Keyed(t) && IsFeedPage(t, vaultId, after, FEED_LIMIT, rows) && page == PageOf(rows, after)
      requires LoadedUpTo(t, vaultId, open, after, loaded)
      ensures LoadedUpTo(t, vaultId, open, page.nextCursor, entries)
    {
      entries := loaded;
      var i := 0;
      while i < |page.changes|
        invariant i <= |page.changes|
        invariant LoadedUpTo(t, vaultId, open, if i == 0 then after else rows[i - 1].sequence, entries)
      {
        var record := page.changes[i];
        NextRow(t, vaultId, after, rows, i);
        RecordKeepsLoaded(t, vaultId, open, if i == 0 then after else rows[i - 1].sequence, rows[i], entries);
        if record.deleted {
          entries := entries - {record.itemId};
        } else {
          var data := open(record);
          if data.Some? {
            entries := entries[record.itemId := ItemEntry(record.itemId, record.revision, data.value)];
          }
        }
        i := i + 1;
      }
    }
  }

  /** Between two rows of a page there is no other row of the vault. */
  lemma NextRow(t: Tables, vaultId: Id, after: int, rows: seq<Row>, i: nat)
    requires Keyed(t) && IsFeedPage(t, vaultId, after, FEED_LIMIT, rows) && i < |rows|
    ensures var last := if i == 0 then after else rows[i - 1].sequence;
            && IsFeedRow(t, vaultId, after, rows[i]) && last < rows[i].sequence
            && rows[i].record.At() == Key(vaultId, rows[i].record.itemId)
            && forall key | key in t.items && key.vaultId == vaultId && last < t.items[key].sequence <= rows[i].sequence ::
                 t.items[key] == rows[i] && key == rows[i].record.At()
  {
    assert IsFeedRow(t, vaultId, after, rows[i]);
    if i > 0 {
      assert IsFeedRow(t, vaultId, after, rows[i - 1]);
    }
  }
}
