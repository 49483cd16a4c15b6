// What the store service does, as functions on the map of stored records.
module StoreModel {
  import opened Wrappers
  import opened Keys
  import opened Records
  import opened KeyValue

  type Store = map<LibraryKey, Record>

  datatype StoreError =
    | ContainerNotFound
    | NotAContainer
    | ParentMismatch
    | CorruptState
    | RootNotCreated

  datatype StoredResource = StoredResource(key: int, resource: Resource)

  // The arguments of one put_items call.
  datatype Batch = Batch(parent: int, items: seq<MediaObject>, resources: seq<StoredResource>)

  // The database during a run: its records, whether each coming write will
  // succeed, and the exception that ended the run, if any.
  datatype Disk = Disk(store: Store, outcomes: seq<bool>, raised: Option<StoreError>)

  // ----- Looking records up -----

  function ReadObject(store: Store, key: LibraryKey): Result<MediaObject, StoreError> {
    if key !in store || !store[key].ObjectRecord? then Err(CorruptState)
    else Ok(store[key].media)
  }

  function ReadContainer(store: Store, id: int): Result<MediaObject, StoreError> {
    if ObjectKey(id) !in store then Err(ContainerNotFound)
    else if !store[ObjectKey(id)].ObjectRecord? then Err(NotAContainer)
    else if !store[ObjectKey(id)].media.data.MediaContainer? then Err(NotAContainer)
    else Ok(store[ObjectKey(id)].media)
  }

  // ----- put_items -----

  function ObjectKeys(items: seq<MediaObject>): (keys: seq<LibraryKey>)
    ensures |keys| == |items|
    ensures forall i :: 0 <= i < |items| ==> keys[i] == ObjectKey(items[i].id)
  {
    seq(|items|, i requires 0 <= i < |items| => ObjectKey(items[i].id))
  }

  function ResourcePuts(resources: seq<StoredResource>): (puts: seq<Entry>)
    ensures |puts| == |resources|
  {
    seq(|resources|, i requires 0 <= i < |resources| =>
      Entry(ResourceKey(resources[i].key), ResourceRecord(resources[i].resource)))
  }

  function ObjectPuts(items: seq<MediaObject>): (puts: seq<Entry>)
    ensures |puts| == |items|
  {
    seq(|items|, i requires 0 <= i < |items| => Entry(ObjectKey(items[i].id), ObjectRecord(items[i])))
  }

  // The parent with the new items appended to its children.
  function Extended(parent: MediaObject, items: seq<MediaObject>): MediaObject {
    SerializeContainer(ChildKeys(parent) + ObjectKeys(items), MetaOf(parent))
  }

  function BatchPuts(batch: Batch, parent: MediaObject): seq<Entry> {
    ResourcePuts(batch.resources) + ObjectPuts(batch.items)
    + [Entry(ObjectKey(batch.parent), ObjectRecord(Extended(parent, batch.items)))]
  }

  predicate ParentsMatch(batch: Batch) {
    forall i :: 0 <= i < |batch.items| ==> batch.items[i].parentId == batch.parent
  }

  ghost function Commit(batch: Batch, disk: Disk): Disk {
    match ReadContainer(disk.store, batch.parent)
    case Err(e) => disk.(raised := Some(e))
    case Ok(parent) =>
      if !ParentsMatch(batch) then disk.(raised := Some(ParentMismatch))
      else
        Disk(if NextOutcome(disk.outcomes) then UpdateAll(disk.store, BatchPuts(batch, parent)) else disk.store,
             LaterOutcomes(disk.outcomes),
             disk.raised)
  }

  // A run of put_items calls; an exception ends it.
  ghost function Execute(batches: seq<Batch>, disk: Disk): Disk
    decreases |batches|
  {
    if batches == [] || disk.raised.Some? then disk
    else Execute(batches[1..], Commit(batches[0], disk))
  }

  lemma {:induction false} ExecuteAppend(a: seq<Batch>, b: seq<Batch>, disk: Disk)
    ensures Execute(a + b, disk) == Execute(b, Execute(a, disk))
    decreases |a|
  {
    if a == [] {
      assert a + b == b;
    } else if disk.raised.None? {
      assert (a + b)[0] == a[0] && (a + b)[1..] == a[1..] + b;
      ExecuteAppend(a[1..], b, Commit(a[0], disk));
    }
  }

  // Once a run has raised, further batches change nothing.
  lemma RaisedEarly(done: seq<Batch>, all: seq<Batch>, disk: Disk)
    requires done <= all && Execute(done, disk).raised.Some?
    ensures Execute(all, disk) == Execute(done, disk)
  {
    ExecuteAppend(done, all[|done|..], disk);
    assert all == done + all[|done|..];
  }

  lemma ExecuteOne(batch: Batch, disk: Disk)
    requires disk.raised.None?
    ensures Execute([batch], disk) == Commit(batch, disk)
  {
    assert [batch][1..] == [];
  }

  // ----- get_next_id -----

  ghost predicate IsNextId(store: Store, kind: KeyKind, id: int) {
    && (forall k :: k in store && HasKind(k, kind) ==> k.id < id)
    && (if exists k :: k in store && HasKind(k, kind) then KeyOf(kind, id - 1) in store else id == 0)
  }

  ghost function IdsOfKind(store: Store, kind: KeyKind): set<int> {
    set k | k in store && HasKind(k, kind) :: k.id
  }

  lemma {:induction false} SomeLargest(ids: set<int>)
    requires exists x :: x in ids
    ensures exists m :: m in ids && forall id :: id in ids ==> id <= m
    decreases |ids|
  {
    var x :| x in ids;
    var rest := ids - {x};
    assert forall id :: id in ids ==> id == x || id in rest;
    if y :| y in rest {
      SomeLargest(rest);
      var m :| m in rest && forall id :: id in rest ==> id <= m;
      var best := if x > m then x else m;
      assert best in ids;
    }
  }

  // One more than the largest id of a kind, or 0 when none is stored.
  ghost function NextId(store: Store, kind: KeyKind): (id: int)
    ensures IsNextId(store, kind, id)
  {
    var ids := IdsOfKind(store, kind);
    assert forall k :: k in store && HasKind(k, kind) ==> k.id in ids;
    if forall id :: id !in ids then 0
    else
      SomeLargest(ids);
      var m :| m in ids && forall id :: id in ids ==> id <= m;
      m + 1
  }

  lemma NextIdUnique(store: Store, kind: KeyKind, a: int, b: int)
    requires IsNextId(store, kind, a) && IsNextId(store, kind, b)
    ensures a == b
  {
    if exists k :: k in store && HasKind(k, kind) {
      assert HasKind(KeyOf(kind, a - 1), kind) && HasKind(KeyOf(kind, b - 1), kind);
    }
  }

  // ----- The records a batch leaves behind -----

  lemma {:induction false} UpdateAllAppend(m: Store, a: seq<Entry>, b: seq<Entry>)
    ensures UpdateAll(m, a + b) == UpdateAll(UpdateAll(m, a), b)
    decreases |a|
  {
    if a == [] {
      assert a + b == b;
    } else {
      assert (a + b)[0] == a[0] && (a + b)[1..] == a[1..] + b;
      UpdateAllAppend(m[a[0].key := a[0].value], a[1..], b);
    }
  }

  ghost predicate DistinctKeys(puts: seq<Entry>) {
    forall i, j :: 0 <= i < j < |puts| ==> puts[i].key != puts[j].key
  }

  // With distinct keys every put survives and no other key is touched.
  lemma {:induction false} UpdateAllDistinct(m: Store, puts: seq<Entry>)
    requires DistinctKeys(puts)
    ensures forall i :: 0 <= i < |puts| ==>
              puts[i].key in UpdateAll(m, puts) && UpdateAll(m, puts)[puts[i].key] == puts[i].value
    ensures forall k :: (forall i :: 0 <= i < |puts| ==> puts[i].key != k) ==>
              (k in UpdateAll(m, puts) <==> k in m) && (k in m ==> UpdateAll(m, puts)[k] == m[k])
    decreases |puts|
  {
    if puts != [] {
      var m' := m[puts[0].key := puts[0].value];
      var rest := puts[1..];
      assert DistinctKeys(rest);
      UpdateAllDistinct(m', rest);
      forall i | 0 <= i < |puts|
        ensures puts[i].key in UpdateAll(m, puts) && UpdateAll(m, puts)[puts[i].key] == puts[i].value
      {
        if i > 0 {
          assert puts[i] == rest[i - 1];
        } else {
          assert forall j :: 0 <= j < |rest| ==> rest[j] == puts[j + 1];
        }
      }
      forall k | forall i :: 0 <= i < |puts| ==> puts[i].key != k
        ensures (k in UpdateAll(m, puts) <==> k in m) && (k in m ==> UpdateAll(m, puts)[k] == m[k])
      {
        assert forall j :: 0 <= j < |rest| ==> rest[j] == puts[j + 1];
        assert k != puts[0].key;
      }
    }
  }

  // The ids of a batch are new to the store, pairwise distinct and not the parent's.
  ghost predicate FreshIds(batch: Batch, store: Store) {
    && (forall i :: 0 <= i < |batch.items| ==>
          ObjectKey(batch.items[i].id) !in store && batch.items[i].id != batch.parent)
    && (forall i, j :: 0 <= i < j < |batch.items| ==> batch.items[i].id != batch.items[j].id)
    && (forall i :: 0 <= i < |batch.resources| ==> ResourceKey(batch.resources[i].key) !in store)
    && (forall i, j :: 0 <= i < j < |batch.resources| ==> batch.resources[i].key != batch.resources[j].key)
  }

  ghost predicate Introduces(batch: Batch, key: LibraryKey) {
    || (exists i :: 0 <= i < |batch.items| && key == ObjectKey(batch.items[i].id))
    || (exists i :: 0 <= i < |batch.resources| && key == ResourceKey(batch.resources[i].key))
  }

  // The state a successful put_items of fresh records leaves: the parent's
  // children are the old ones followed by the new, and the rest of the parent
  // but a date is as it was; the new records are there; nothing else changed.
  ghost predicate Appended(batch: Batch, before: Store, after: Store)
    requires ReadContainer(before, batch.parent).Ok?
  {
    var parent := ReadContainer(before, batch.parent).value;
    && (forall k :: k in after <==> k in before || Introduces(batch, k))
    && ObjectKey(batch.parent) in after
    && after[ObjectKey(batch.parent)] == ObjectRecord(
         parent.(dcDate := 0, data := MediaContainer(parent.data.objects + ObjectKeys(batch.items))))
    && (forall i :: 0 <= i < |batch.items| ==>
          after[ObjectKey(batch.items[i].id)] == ObjectRecord(batch.items[i]))
    && (forall i :: 0 <= i < |batch.resources| ==>
          after[ResourceKey(batch.resources[i].key)] == ResourceRecord(batch.resources[i].resource))
    && (forall k :: k in before && k != ObjectKey(batch.parent) ==> after[k] == before[k])
  }

  // put_items of fresh records appends them, or leaves the store alone: when
  // the parent is missing or wrong, when an item names another parent, and
  // when the write fails.
  lemma CommitAppends(batch: Batch, disk: Disk)
    requires disk.raised.None? && FreshIds(batch, disk.store)
    ensures var after := Commit(batch, disk);
            if ReadContainer(disk.store, batch.parent).Ok? && ParentsMatch(batch) then
              && after.raised.None?
              && (if NextOutcome(disk.outcomes) then Appended(batch, disk.store, after.store)
                  else after.store == disk.store)
            else after.raised.Some? && after.store == disk.store && after.outcomes == disk.outcomes
  {
    match ReadContainer(disk.store, batch.parent)
    case Err(_) =>
    case Ok(parent) =>
      if ParentsMatch(batch) && NextOutcome(disk.outcomes) {
        var puts := BatchPuts(batch, parent);
        var r, n := |batch.resources|, |batch.items|;
        BatchPutsAre(batch, parent);
        assert DistinctKeys(puts);
        UpdateAllDistinct(disk.store, puts);
        var after := UpdateAll(disk.store, puts);
        assert puts[r + n].key == ObjectKey(batch.parent);
        forall i | 0 <= i < n
          ensures ObjectKey(batch.items[i].id) in after && after[ObjectKey(batch.items[i].id)]
                  == ObjectRecord(batch.items[i])
        {
          assert puts[r + i].key == ObjectKey(batch.items[i].id);
        }
        forall i | 0 <= i < r
          ensures ResourceKey(batch.resources[i].key) in after
          ensures after[ResourceKey(batch.resources[i].key)] == ResourceRecord(batch.resources[i].resource)
        {
          assert puts[i].key == ResourceKey(batch.resources[i].key);
        }
        forall k ensures k in after <==> k in disk.store || Introduces(batch, k) {
          AppendedKey(batch, disk.store, parent, k);
        }
      }
  }

  lemma BatchPutsAre(batch: Batch, parent: MediaObject)
    ensures var puts := BatchPuts(batch, parent);
            var r, n := |batch.resources|, |batch.items|;
            && |puts| == r + n + 1
            && (forall i :: 0 <= i < r ==> puts[i] == ResourcePuts(batch.resources)[i])
            && (forall i :: r <= i < r + n ==> puts[i] == ObjectPuts(batch.items)[i - r])
            && puts[r + n] == Entry(ObjectKey(batch.parent), ObjectRecord(Extended(parent, batch.items)))
  {
  }

  lemma AppendedKey(batch: Batch, store: Store, parent: MediaObject, k: LibraryKey)
    requires FreshIds(batch, store) && ReadContainer(store, batch.parent) == Ok(parent)
    ensures k in UpdateAll(store, BatchPuts(batch, parent)) <==> k in store || Introduces(batch, k)
  {
    var puts := BatchPuts(batch, parent);
    UpdateAllKeys(store, puts, k);
    PutKeys(batch, parent, k);
  }

  lemma {:induction false} UpdateAllKeys(m: Store, puts: seq<Entry>, k: LibraryKey)
    ensures k in UpdateAll(m, puts) <==> k in m || exists e :: e in puts && e.key == k
    decreases |puts|
  {
    if puts != [] {
      UpdateAllKeys(m[puts[0].key := puts[0].value], puts[1..], k);
      assert forall e :: e in puts <==> e == puts[0] || e in puts[1..];
    }
  }

  lemma PutKeys(batch: Batch, parent: MediaObject, k: LibraryKey)
    ensures (exists e :: e in BatchPuts(batch, parent) && e.key == k)
            <==> k == ObjectKey(batch.parent) || Introduces(batch, k)
  {
    var resources, objects := ResourcePuts(batch.resources), ObjectPuts(batch.items);
    var last := Entry(ObjectKey(batch.parent), ObjectRecord(Extended(parent, batch.items)));
    assert forall e :: e in BatchPuts(batch, parent) <==> e in resources || e in objects || e == last;
    if i :| 0 <= i < |batch.items| && k == ObjectKey(batch.items[i].id) {
      assert objects[i] in objects && objects[i].key == k;
    }
    if i :| 0 <= i < |batch.resources| && k == ResourceKey(batch.resources[i].key) {
      assert resources[i] in resources && resources[i].key == k;
    }
  }
}
