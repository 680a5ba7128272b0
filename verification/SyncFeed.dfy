/** Counting the rows of the change feed, the measure of every loop that reads it. */
module SyncFeed {
  import opened Wrappers
  import opened SyncModel

  /** The rows of the vault above the cursor. */
  function Above(t: Tables, vaultId: Id, after: int): set<Key> {
    set key | key in t.items && key.vaultId == vaultId && t.items[key].sequence > after
  }

  /** Every row is stored under its primary key, and sequences are unique. */
  ghost predicate Keyed(t: Tables) {
    && (forall key | key in t.items :: t.items[key].record.At() == key)
    && DistinctSequences(t.items)
  }

  ghost function KeysOf(rows: seq<Row>): set<Key> {
    set j | 0 <= j < |rows| :: rows[j].record.At()
  }

  lemma {:induction false} DistinctKeysCount(rows: seq<Row>)
    requires forall i, j | 0 <= i < j < |rows| :: rows[i].record.At() != rows[j].record.At()
    ensures |KeysOf(rows)| == |rows|
  {
    if rows != [] {
      var front, last := rows[..|rows| - 1], rows[|rows| - 1];
      DistinctKeysCount(front);
      assert KeysOf(rows) == KeysOf(front) + {last.record.At()};
      assert last.record.At() !in KeysOf(front);
    }
  }

  lemma PageKeysAreDistinct(t: Tables, vaultId: Id, after: int, limit: nat, rows: seq<Row>)
    requires IsFeedPage(t, vaultId, after, limit, rows)
    ensures forall i, j | 0 <= i < j < |rows| :: rows[i].record.At() != rows[j].record.At()
    ensures KeysOf(rows) <= Above(t, vaultId, after)
  {
    forall j | 0 <= j < |rows|
      ensures rows[j].record.At() in Above(t, vaultId, after) && t.items[rows[j].record.At()] == rows[j]
    {
      assert IsFeedRow(t, vaultId, after, rows[j]);
    }
  }

  lemma AboveNextCursor(t: Tables, vaultId: Id, after: int, limit: nat, rows: seq<Row>)
    requires 0 < limit && Keyed(t) && IsFeedPage(t, vaultId, after, limit, rows)
    ensures Above(t, vaultId, PageOf(rows, after).nextCursor) == Above(t, vaultId, after) - KeysOf(rows)
    ensures |rows| < limit ==> Above(t, vaultId, after) == KeysOf(rows)
  {
    PageKeysAreDistinct(t, vaultId, after, limit, rows);
    var next := PageOf(rows, after).nextCursor;
    forall key | key in Above(t, vaultId, after)
      ensures key in KeysOf(rows) || (|rows| == limit && t.items[key].sequence > next)
    {
      if t.items[key] in rows {
        var j :| 0 <= j < |rows| && rows[j] == t.items[key];
        assert IsFeedRow(t, vaultId, after, rows[j]);
        assert rows[j].record.At() == key;
      }
    }
    forall key | key in KeysOf(rows)
      ensures key !in Above(t, vaultId, next)
    {
      var j :| 0 <= j < |rows| && rows[j].record.At() == key;
      assert IsFeedRow(t, vaultId, after, rows[j]);
    }
    if rows != [] {
      assert IsFeedRow(t, vaultId, after, rows[|rows| - 1]);
    }
  }

  function Min(a: int, b: int): int {
    if a < b then a else b
  }

  lemma DifferenceCount(all: set<Key>, part: set<Key>)
    requires part <= all
    ensures |all - part| == |all| - |part|
  {
    assert all == (all - part) + part;
  }

  /** A page takes the first rows above the cursor, as many as fit. */
  lemma PageTakesRows(t: Tables, vaultId: Id, after: int, limit: nat, rows: seq<Row>)
    requires 0 < limit && Keyed(t) && IsFeedPage(t, vaultId, after, limit, rows)
    ensures |rows| == Min(limit, |Above(t, vaultId, after)|)
    ensures |Above(t, vaultId, PageOf(rows, after).nextCursor)| == |Above(t, vaultId, after)| - |rows|
    ensures rows != [] ==> after < PageOf(rows, after).nextCursor
  {
    var all, taken := Above(t, vaultId, after), KeysOf(rows);
    PageKeysAreDistinct(t, vaultId, after, limit, rows);
    DistinctKeysCount(rows);
    AboveNextCursor(t, vaultId, after, limit, rows);
    DifferenceCount(all, taken);
    if rows != [] {
      assert IsFeedRow(t, vaultId, after, rows[|rows| - 1]);
    }
  }
}
