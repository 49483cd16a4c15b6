// The store service: reads through snapshot iterators, writes through batches.
module StoreService {
  import opened Wrappers
  import opened Text
  import opened Keys
  import opened Records
  import opened KeyValue
  import opened StoreModel

  const ROOT_ID: int := 0

  function RootContainer(): MediaObject {
    SerializeContainer([], ContainerMeta(ROOT_ID, -1, "", ContainerClass, []))
  }

  function FreshStore(): Store {
    map[ObjectKey(ROOT_ID) := ObjectRecord(RootContainer())]
  }

  // ----- The id search -----

  // What seeking the largest key of a kind and stepping back arrives at.
  function StepBackId(entries: seq<Entry>, kind: KeyKind): int {
    var n := LowerBound(entries, KeyOf(kind, INT64_MAX));
    if n == 0 || !HasKind(entries[n - 1].key, kind) then 0
    else entries[n - 1].key.id + 1
  }

  ghost predicate Int64Ids(store: Store, kind: KeyKind) {
    forall k :: k in store && HasKind(k, kind) ==> k.id <= INT64_MAX
  }

  // Every key of the kind lies before the place the search seeks to.
  lemma KindLiesBelow(entries: seq<Entry>, kind: KeyKind, k: LibraryKey)
    requires Sorted(entries) && Int64Ids(AsMap(entries), kind)
    requires KeyOf(kind, INT64_MAX) !in AsMap(entries)
    requires k in AsMap(entries) && HasKind(k, kind)
    ensures var n := LowerBound(entries, KeyOf(kind, INT64_MAX));
            n > 0 && Compare(k, entries[n - 1].key) <= 0
  {
    var max := KeyOf(kind, INT64_MAX);
    var n := LowerBound(entries, max);
    AsMapHolds(entries);
    var i :| 0 <= i < |entries| && entries[i].key == k;
    assert k == KeyOf(kind, k.id) && k != max;
    assert Before(k, max);
    if i >= n {
      assert i == n || Before(entries[n].key, k);
      CompareIsTotalOrder(entries[n].key, k, max);
      assert false;
    }
    assert i == n - 1 || Before(k, entries[n - 1].key);
  }

  lemma StepBackBelowMaximum(entries: seq<Entry>, kind: KeyKind)
    requires Sorted(entries) && Int64Ids(AsMap(entries), kind)
    requires KeyOf(kind, INT64_MAX) !in AsMap(entries)
    ensures IsNextId(AsMap(entries), kind, StepBackId(entries, kind))
  {
    var store := AsMap(entries);
    var n := LowerBound(entries, KeyOf(kind, INT64_MAX));
    forall k | k in store && HasKind(k, kind)
      ensures n > 0 && Compare(k, entries[n - 1].key) <= 0
    {
      KindLiesBelow(entries, kind, k);
    }
    if n > 0 {
      var last := entries[n - 1].key;
      AsMapHolds(entries);
      assert last in store;
      assert Before(last, KeyOf(kind, INT64_MAX));
      if HasKind(last, kind) {
        assert last == KeyOf(kind, last.id);
      } else if k :| k in store && HasKind(k, kind) {
        assert false;
      }
    }
  }

  // The search finds the next id exactly when the largest 64-bit id is unused.
  lemma StepBackIsNextId(entries: seq<Entry>, kind: KeyKind)
    requires Sorted(entries) && Int64Ids(AsMap(entries), kind)
    ensures StepBackId(entries, kind) == NextId(AsMap(entries), kind)
            <==> KeyOf(kind, INT64_MAX) !in AsMap(entries)
  {
    var store := AsMap(entries);
    if KeyOf(kind, INT64_MAX) !in store {
      StepBackBelowMaximum(entries, kind);
      NextIdUnique(store, kind, StepBackId(entries, kind), NextId(store, kind));
    } else {
      assert HasKind(KeyOf(kind, INT64_MAX), kind);
      assert NextId(store, kind) > INT64_MAX;
      var n := LowerBound(entries, KeyOf(kind, INT64_MAX));
      if n > 0 && HasKind(entries[n - 1].key, kind) {
        assert Before(entries[n - 1].key, KeyOf(kind, INT64_MAX));
      }
    }
  }

  // A root with the largest id beside it: the search passes over that one.
  lemma LargestIdInUse(media: MediaObject)
    ensures var entries := [Entry(ObjectKey(ROOT_ID), ObjectRecord(RootContainer())),
                            Entry(ObjectKey(INT64_MAX), ObjectRecord(media))];
            && Sorted(entries) && StepBackId(entries, ObjectKind) == 1
            && NextId(AsMap(entries), ObjectKind) == INT64_MAX + 1
  {
    var entries := [Entry(ObjectKey(ROOT_ID), ObjectRecord(RootContainer())),
                    Entry(ObjectKey(INT64_MAX), ObjectRecord(media))];
    AsMapHolds(entries);
    var store := AsMap(entries);
    assert entries[1].key in store && HasKind(entries[1].key, ObjectKind);
    assert Sorted(entries);
    NextIdUnique(store, ObjectKind, NextId(store, ObjectKind), INT64_MAX + 1);
  }

  // ----- Views -----

  // The children of a container as of the moment it was listed.
  class ListResultView {
    const dbIt: DbIterator
    const objects: seq<LibraryKey>

    constructor (dbIt: DbIterator, objects: seq<LibraryKey>)
      ensures this.dbIt == dbIt && this.objects == objects
    {
      this.dbIt := dbIt;
      this.objects := objects;
    }

    ghost predicate Valid() {
      Sorted(dbIt.snapshot)
    }

    // The element at an index, fixed when the view was made.
    ghost function Element(i: nat): Result<MediaObject, StoreError>
      requires i < |objects|
    {
      ReadObject(AsMap(dbIt.snapshot), objects[i])
    }
  }

  class Cursor {
    const view: ListResultView
    var keyIndex: int

    constructor (view: ListResultView)
      ensures this.view == view && keyIndex == 0
    {
      this.view := view;
      keyIndex := 0;
    }

    method Next()
      modifies this
      ensures keyIndex == old(keyIndex) + 1
    {
      keyIndex := keyIndex + 1;
    }

    method Advance(n: int)
      modifies this
      ensures keyIndex == old(keyIndex) + n
    {
      keyIndex := keyIndex + n;
    }

    // Reading moves the shared iterator and nothing else; what it yields
    // depends on the snapshot only, not on the database.
    method Read() returns (r: Result<MediaObject, StoreError>)
      requires view.Valid() && 0 <= keyIndex < |view.objects|
      modifies view.dbIt
      ensures r == view.Element(keyIndex)
    {
      var key := view.objects[keyIndex];
      var it := view.dbIt;
      it.Seek(key);
      LowerBoundFinds(it.snapshot, key);
      if !it.Valid() || it.Key() != key {
        return Err(CorruptState);
      }
      match it.Value()
      case ObjectRecord(media) => return Ok(media);
      case ResourceRecord(_) => return Err(CorruptState);
    }
  }

  class StoreService {
    var db: Database?

    ghost predicate Valid()
      reads this, db
    {
      db != null && db.Invariant()
    }

    ghost function State(): Disk
      requires Valid()
      reads this, db
    {
      Disk(db.Contents(), db.outcomes, None)
    }

    // Opens the database found on disk, or starts one that holds the root only.
    method OpenDb(existing: Option<seq<Entry>>, outcomes: seq<bool>) returns (r: Result<bool, StoreError>)
      requires existing.Some? ==> Sorted(existing.value)
      modifies this
      ensures Valid() && fresh(db)
      ensures existing.Some? ==> r == Ok(true) && db.entries == existing.value && db.outcomes == outcomes
      ensures existing.None? ==>
        && r == (if NextOutcome(outcomes) then Ok(false) else Err(RootNotCreated))
        && State() == Disk(if NextOutcome(outcomes) then FreshStore() else map[], LaterOutcomes(outcomes), None)
    {
      if existing.Some? {
        db := new Database(existing.value, outcomes);
        return Ok(true);
      }
      db := new Database([], outcomes);
      var root := Entry(ObjectKey(ROOT_ID), ObjectRecord(RootContainer()));
      assert UpdateAll(map[], [root]) == FreshStore();
      var ok := db.Write([root]);
      if !ok {
        return Err(RootNotCreated);
      }
      return Ok(false);
    }

    method CreateIterator() returns (it: DbIterator)
      requires Valid()
      ensures fresh(it) && it.snapshot == db.entries
    {
      it := db.NewIterator();
    }

    method GetNextId(kind: KeyKind) returns (id: int)
      requires Valid() && Int64Ids(db.Contents(), kind)
      ensures id == NextId(db.Contents(), kind) <==> KeyOf(kind, INT64_MAX) !in db.Contents()
    {
      var it := CreateIterator();
      it.Seek(KeyOf(kind, INT64_MAX));
      if !it.Valid() {
        it.SeekToLast();
      } else {
        it.Prev();
      }
      StepBackIsNextId(db.entries, kind);
      if !it.Valid() {
        return 0;
      }
      if !HasKind(it.Key(), kind) {
        return 0;
      }
      return it.Key().id + 1;
    }

    static method DeserializeContainer(id: int, iter: DbIterator)
      returns (r: Result<(seq<LibraryKey>, ContainerMeta), StoreError>)
      requires Sorted(iter.snapshot)
      modifies iter
      ensures match ReadContainer(AsMap(iter.snapshot), id)
              case Err(e) => r == Err(e)
              case Ok(media) => r == Ok((ChildKeys(media), MetaOf(media)))
    {
      iter.Seek(ObjectKey(id));
      LowerBoundFinds(iter.snapshot, ObjectKey(id));
      if !iter.Valid() || iter.Key() != ObjectKey(id) {
        return Err(ContainerNotFound);
      }
      if !iter.Value().ObjectRecord? {
        return Err(NotAContainer);
      }
      var media := iter.Value().media;
      if !media.data.MediaContainer? {
        return Err(NotAContainer);
      }
      var meta := ContainerMeta(media.id, media.parentId, media.dcTitle, media.upnpClass, media.artwork);
      return Ok((media.data.objects, meta));
    }

    // Adds items and their resources under a parent, in one batch. A failed
    // write is only logged, so the caller does not hear of it.
    method PutItems(parent: int, items: seq<MediaObject>, resources: seq<StoredResource>)
      returns (raised: Option<StoreError>)
      requires Valid()
      modifies db
      ensures Valid()
      ensures Disk(db.Contents(), db.outcomes, raised) == Commit(Batch(parent, items, resources), old(State()))
    {
      var it := CreateIterator();
      var container := DeserializeContainer(parent, it);
      if container.Err? {
        return Some(container.error);
      }
      var (containerData, meta) := container.value;
      ghost var media := ReadContainer(db.Contents(), parent).value;

      var puts: seq<Entry> := [];
      for i := 0 to |resources|
        invariant puts == ResourcePuts(resources)[..i]
      {
        puts := puts + [Entry(ResourceKey(resources[i].key), ResourceRecord(resources[i].resource))];
      }
      for i := 0 to |items|
        invariant puts == ResourcePuts(resources) + ObjectPuts(items)[..i]
        invariant containerData == ChildKeys(media) + ObjectKeys(items)[..i]
        invariant forall k :: 0 <= k < i ==> items[k].parentId == parent
      {
        if items[i].parentId != parent {
          assert !ParentsMatch(Batch(parent, items, resources));
          return Some(ParentMismatch);
        }
        puts := puts + [Entry(ObjectKey(items[i].id), ObjectRecord(items[i]))];
        containerData := containerData + [ObjectKey(items[i].id)];
      }
      assert containerData == ChildKeys(media) + ObjectKeys(items);
      puts := puts + [Entry(ObjectKey(parent), ObjectRecord(SerializeContainer(containerData, meta)))];
      assert puts == BatchPuts(Batch(parent, items, resources), media);
      var status := db.Write(puts);
      return None;
    }

    method List(id: int) returns (r: Result<ListResultView, StoreError>)
      requires Valid()
      ensures match ReadContainer(db.Contents(), id)
              case Err(e) => r == Err(e)
              case Ok(media) =>
                && r.Ok? && fresh(r.value) && fresh(r.value.dbIt) && r.value.Valid()
                && r.value.objects == ChildKeys(media)
                && r.value.dbIt.snapshot == db.entries
    {
      var it := CreateIterator();
      var container := DeserializeContainer(id, it);
      if container.Err? {
        return Err(container.error);
      }
      var view := new ListResultView(it, container.value.0);
      return Ok(view);
    }

    method Get(id: int) returns (view: ListResultView)
      requires Valid()
      ensures fresh(view) && fresh(view.dbIt) && view.Valid()
      ensures view.objects == [ObjectKey(id)] && view.dbIt.snapshot == db.entries
    {
      var it := CreateIterator();
      view := new ListResultView(it, [ObjectKey(id)]);
    }

    method GetResource(id: int) returns (r: Option<Resource>)
      requires Valid()
      ensures r.Some? <==> ResourceKey(id) in db.Contents() && db.Contents()[ResourceKey(id)].ResourceRecord?
      ensures r.Some? ==> db.Contents()[ResourceKey(id)] == ResourceRecord(r.value)
    {
      var it := CreateIterator();
      it.Seek(ResourceKey(id));
      LowerBoundFinds(it.snapshot, ResourceKey(id));
      if !it.Valid() || it.Key() != ResourceKey(id) || !it.Value().ResourceRecord? {
        return None;
      }
      return Some(it.Value().resource);
    }
  }
}
