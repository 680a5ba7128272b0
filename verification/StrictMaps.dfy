/** Looking fields up in a strict map, and requiring its key set (`crates/crypto-core/src/canon.rs`). */
module StrictMaps {
  import opened Wrappers
  import opened Cbor
  import opened CryptoErrors
  import opened StrictCbor

  function Find(entries: seq<Entry>, key: nat): Option<Field> {
    if entries == [] then None
    else if entries[0].key == key then Some(entries[0].value)
    else Find(entries[1..], key)
  }

  /** `require_keys` with the keys 1..last, as every contract map has them. */
  function RequireKeys(entries: seq<Entry>, last: nat): Result<(), Error> {
    if exists key | 1 <= key <= last :: Find(entries, key).None? then Err(InvalidEncoding)
    else if exists j | 0 <= j < |entries| :: !(1 <= entries[j].key <= last) then Err(UnknownField)
    else Ok(())
  }

  function TextAt(entries: seq<Entry>, key: nat): Option<bytes> {
    match Find(entries, key)
    case Some(Text(t)) => Some(t)
    case _ => None
  }

  function BytesAt(entries: seq<Entry>, key: nat): Option<bytes> {
    match Find(entries, key)
    case Some(Bytes(d)) => Some(d)
    case _ => None
  }

  function IntAt(entries: seq<Entry>, key: nat): Option<int> {
    match Find(entries, key)
    case Some(Int(i)) => Some(i)
    case _ => None
  }

  lemma {:induction false} AscendingKeys(entries: seq<Entry>, i: nat, j: nat)
    requires Ascending(entries) && i <= j < |entries|
    ensures entries[i].key + (j - i) <= entries[j].key
  {
    if i < j {
      AscendingKeys(entries, i, j - 1);
      assert entries[j - 1].key < entries[j - 1 + 1].key;
    }
  }

  lemma {:induction false} IndexOf(entries: seq<Entry>, key: nat) returns (j: nat)
    requires Find(entries, key).Some?
    ensures j < |entries| && entries[j] == Entry(key, Find(entries, key).value)
  {
    if entries[0].key == key {
      j := 0;
    } else {
      j := IndexOf(entries[1..], key);
      j := j + 1;
    }
  }

  /** Key `k` cannot come before index `k - 1`: the smaller keys are there too. */
  lemma {:induction false} IndexAtLeast(entries: seq<Entry>, last: nat, key: nat) returns (j: nat)
    requires Ascending(entries) && RequireKeys(entries, last).Ok? && 1 <= key <= last
    ensures key - 1 <= j < |entries| && entries[j] == Entry(key, Find(entries, key).value)
    decreases key
  {
    j := IndexOf(entries, key);
    if key > 1 {
      var i := IndexAtLeast(entries, last, key - 1);
      if j < i {
        AscendingKeys(entries, j, i);
      }
    }
  }

  /** The required keys are in place: the map holds exactly 1..last, each at its index. */
  lemma KeysInPlace(entries: seq<Entry>, last: nat)
    requires Ascending(entries) && RequireKeys(entries, last).Ok?
    ensures |entries| == last
    ensures forall key | 1 <= key <= last :: Find(entries, key).Some? && entries[key - 1] == Entry(key, Find(entries, key).value)
  {
    if entries != [] {
      AscendingKeys(entries, 0, |entries| - 1);
      assert 1 <= entries[0].key && entries[|entries| - 1].key <= last;
    }
    forall key | 1 <= key <= last
      ensures |entries| >= key && Find(entries, key).Some? && entries[key - 1] == Entry(key, Find(entries, key).value)
    {
      var j := IndexAtLeast(entries, last, key);
      AscendingKeys(entries, 0, j);
      assert 1 <= entries[0].key;
    }
    if last > 0 {
      var j := IndexAtLeast(entries, last, last);
    }
  }

  predicate Numbered(entries: seq<Entry>) {
    forall j | 0 <= j < |entries| :: entries[j].key == j + 1
  }

  lemma {:induction false} FindAt(entries: seq<Entry>, j: nat)
    requires Ascending(entries) && j < |entries|
    ensures Find(entries, entries[j].key) == Some(entries[j].value)
  {
    if j > 0 {
      AscendingKeys(entries, 0, j);
      forall i | 0 <= i < |entries[1..]| - 1
        ensures entries[1..][i].key < entries[1..][i + 1].key
      {
        assert entries[i + 1].key < entries[i + 1 + 1].key;
      }
      FindAt(entries[1..], j - 1);
    }
  }

  /** A list numbered from 1 passes `require_keys` and is found field by field. */
  lemma NumberedIsFound(entries: seq<Entry>)
    requires Numbered(entries)
    ensures Ascending(entries) && RequireKeys(entries, |entries|).Ok?
    ensures forall j | 0 <= j < |entries| :: Find(entries, j + 1) == Some(entries[j].value)
  {
    forall j | 0 <= j < |entries|
      ensures Find(entries, j + 1) == Some(entries[j].value)
    {
      FindAt(entries, j);
    }
    forall key: nat | 1 <= key <= |entries|
      ensures Find(entries, key).Some?
    {
      assert Find(entries, (key - 1) + 1) == Some(entries[key - 1].value);
    }
  }
}
