// An ordered key/value database with snapshot iterators and atomic batches.
module KeyValue {
  import opened Keys
  import opened Records

  datatype Entry = Entry(key: LibraryKey, value: Record)

  ghost predicate Sorted(entries: seq<Entry>) {
    forall i, j :: 0 <= i < j < |entries| ==> Before(entries[i].key, entries[j].key)
  }

  ghost function AsMap(entries: seq<Entry>): map<LibraryKey, Record> {
    if entries == [] then map[]
    else AsMap(entries[1..])[entries[0].key := entries[0].value]
  }

  lemma {:induction false} AsMapHolds(entries: seq<Entry>)
    requires Sorted(entries)
    ensures forall i :: 0 <= i < |entries| ==>
              entries[i].key in AsMap(entries) && AsMap(entries)[entries[i].key] == entries[i].value
    ensures forall k :: k in AsMap(entries) ==> exists i :: 0 <= i < |entries| && entries[i].key == k
  {
    if entries != [] {
      AsMapHolds(entries[1..]);
      forall i | 0 < i < |entries|
        ensures entries[i].key in AsMap(entries) && AsMap(entries)[entries[i].key] == entries[i].value
      {
        assert entries[1..][i - 1] == entries[i];
        assert Before(entries[0].key, entries[i].key);
      }
      forall k | k in AsMap(entries) ensures exists i :: 0 <= i < |entries| && entries[i].key == k {
        if k != entries[0].key {
          var j :| 0 <= j < |entries[1..]| && entries[1..][j].key == k;
          assert entries[j + 1].key == k;
        }
      }
    }
  }

  // Index of the first entry at or after a key.
  function LowerBound(entries: seq<Entry>, key: LibraryKey): (n: nat)
    ensures n <= |entries|
    ensures n < |entries| ==> !Before(entries[n].key, key)
    ensures forall i :: 0 <= i < n ==> Before(entries[i].key, key)
  {
    if entries == [] || !Before(entries[0].key, key) then 0
    else 1 + LowerBound(entries[1..], key)
  }

  // A sorted list holds a key exactly when its lower bound is that key.
  lemma {:induction false} LowerBoundFinds(entries: seq<Entry>, key: LibraryKey)
    requires Sorted(entries)
    ensures var n := LowerBound(entries, key);
            if n < |entries| && entries[n].key == key
            then key in AsMap(entries) && AsMap(entries)[key] == entries[n].value
            else key !in AsMap(entries)
  {
    NotBeforeItself(key);
    hide Before;
    if entries != [] {
      var rest := entries[1..];
      if Before(entries[0].key, key) {
        LowerBoundFinds(rest, key);
      } else {
        if key in AsMap(rest) {
          LaterIsAfter(entries, key);
          assert false;
        }
      }
    }
  }

  lemma LaterIsAfter(entries: seq<Entry>, key: LibraryKey)
    requires Sorted(entries) && entries != [] && key in AsMap(entries[1..])
    ensures Before(entries[0].key, key)
  {
    AsMapHolds(entries[1..]);
    var i :| 0 <= i < |entries[1..]| && entries[1..][i].key == key;
    assert entries[i + 1].key == key;
  }

  lemma NotBeforeItself(key: LibraryKey)
    ensures !Before(key, key)
  {
  }

  // Inserts an entry at its place, or replaces the one with the same key.
  function Put(entries: seq<Entry>, key: LibraryKey, value: Record): seq<Entry> {
    if entries == [] || Before(key, entries[0].key) then [Entry(key, value)] + entries
    else if entries[0].key == key then [Entry(key, value)] + entries[1..]
    else [entries[0]] + Put(entries[1..], key, value)
  }

  lemma {:induction false} PutMembers(entries: seq<Entry>, key: LibraryKey, value: Record, e: Entry)
    requires e in Put(entries, key, value)
    ensures e in entries || e == Entry(key, value)
  {
    hide Before;
    if entries != [] && !Before(key, entries[0].key) && entries[0].key != key && e != entries[0] {
      PutMembers(entries[1..], key, value, e);
    }
  }

  lemma {:induction false} PutKeepsSorted(entries: seq<Entry>, key: LibraryKey, value: Record)
    requires Sorted(entries)
    ensures Sorted(Put(entries, key, value))
  {
    var after := Put(entries, key, value);
    if entries == [] {
    } else if Before(key, entries[0].key) {
      forall i | 0 < i < |entries| ensures Before(key, entries[i].key) {
        CompareIsTotalOrder(key, entries[0].key, entries[i].key);
      }
    } else if entries[0].key != key {
      PutKeepsSorted(entries[1..], key, value);
      var rest := Put(entries[1..], key, value);
      assert Before(entries[0].key, key) by { CompareIsTotalOrder(entries[0].key, key, key); }
      hide Before;
      forall j | 0 <= j < |rest| ensures Before(entries[0].key, rest[j].key) {
        PutMembers(entries[1..], key, value, rest[j]);
        if rest[j] in entries[1..] {
          var i :| 0 <= i < |entries[1..]| && entries[1..][i] == rest[j];
          assert entries[i + 1] == rest[j];
        }
      }
      assert after == [entries[0]] + rest;
    }
  }

  lemma {:induction false} PutUpdates(entries: seq<Entry>, key: LibraryKey, value: Record)
    requires Sorted(entries)
    ensures Sorted(Put(entries, key, value))
    ensures AsMap(Put(entries, key, value)) == AsMap(entries)[key := value]
  {
    PutKeepsSorted(entries, key, value);
    hide Before;
    var after := Put(entries, key, value);
    if entries == [] || Before(key, entries[0].key) {
      assert after[1..] == entries;
    } else if entries[0].key == key {
      assert after[1..] == entries[1..];
    } else {
      PutUpdates(entries[1..], key, value);
      assert after[1..] == Put(entries[1..], key, value);
    }
  }

  // All puts of a batch, in order.
  function PutAll(entries: seq<Entry>, batch: seq<Entry>): seq<Entry>
    decreases |batch|
  {
    if batch == [] then entries
    else PutAll(Put(entries, batch[0].key, batch[0].value), batch[1..])
  }

  ghost function UpdateAll(m: map<LibraryKey, Record>, batch: seq<Entry>): map<LibraryKey, Record>
    decreases |batch|
  {
    if batch == [] then m
    else UpdateAll(m[batch[0].key := batch[0].value], batch[1..])
  }

  lemma {:induction false} PutAllUpdates(entries: seq<Entry>, batch: seq<Entry>)
    requires Sorted(entries)
    ensures Sorted(PutAll(entries, batch))
    ensures AsMap(PutAll(entries, batch)) == UpdateAll(AsMap(entries), batch)
    decreases |batch|
  {
    if batch != [] {
      PutUpdates(entries, batch[0].key, batch[0].value);
      PutAllUpdates(Put(entries, batch[0].key, batch[0].value), batch[1..]);
    }
  }

  // A cursor over the database as it was when the cursor was made.
  class DbIterator {
    const snapshot: seq<Entry>
    var position: int

    constructor (snapshot: seq<Entry>)
      ensures this.snapshot == snapshot && !Valid()
    {
      this.snapshot := snapshot;
      position := -1;
    }

    predicate Valid()
      reads this
    {
      0 <= position < |snapshot|
    }

    function Key(): LibraryKey
      requires Valid()
      reads this
    {
      snapshot[position].key
    }

    function Value(): Record
      requires Valid()
      reads this
    {
      snapshot[position].value
    }

    // Moves to the first entry at or after the key.
    method Seek(key: LibraryKey)
      modifies this
      ensures position == LowerBound(snapshot, key)
    {
      position := LowerBound(snapshot, key);
    }

    method SeekToLast()
      modifies this
      ensures position == |snapshot| - 1
    {
      position := |snapshot| - 1;
    }

    method Prev()
      requires Valid()
      modifies this
      ensures position == old(position) - 1
    {
      position := position - 1;
    }
  }

  class Database {
    var entries: seq<Entry>
    // Whether each coming write will succeed; once used up, writes succeed.
    var outcomes: seq<bool>

    ghost predicate Invariant()
      reads this
    {
      Sorted(entries)
    }

    ghost function Contents(): map<LibraryKey, Record>
      reads this
    {
      AsMap(entries)
    }

    constructor (entries: seq<Entry>, outcomes: seq<bool>)
      requires Sorted(entries)
      ensures Invariant() && this.entries == entries && this.outcomes == outcomes
    {
      this.entries := entries;
      this.outcomes := outcomes;
    }

    method NewIterator() returns (it: DbIterator)
      ensures fresh(it) && it.snapshot == entries
    {
      it := new DbIterator(entries);
    }

    // Commits the whole batch or, when the write fails, nothing of it.
    method Write(batch: seq<Entry>) returns (ok: bool)
      requires Invariant()
      modifies this
      ensures Invariant()
      ensures ok == NextOutcome(old(outcomes)) && outcomes == LaterOutcomes(old(outcomes))
      ensures Contents() == if ok then UpdateAll(old(Contents()), batch) else old(Contents())
    {
      ok := outcomes == [] || outcomes[0];
      outcomes := if outcomes == [] then [] else outcomes[1..];
      if ok {
        PutAllUpdates(entries, batch);
        entries := PutAll(entries, batch);
      }
    }
  }

  function NextOutcome(outcomes: seq<bool>): bool {
    outcomes == [] || outcomes[0]
  }

  function LaterOutcomes(outcomes: seq<bool>): seq<bool> {
    if outcomes == [] then [] else outcomes[1..]
  }
}
