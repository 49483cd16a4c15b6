// The invariant of the library database: a tree of objects under the root,
// and resources that are each referred to exactly once.
module StoreInvariant {
  import opened Keys
  import opened Records
  import opened StoreModel
  import opened StoreService

  ghost predicate HasObject(store: Store, id: int) {
    ObjectKey(id) in store && store[ObjectKey(id)].ObjectRecord?
  }

  ghost function Obj(store: Store, id: int): MediaObject
    requires HasObject(store, id)
  {
    store[ObjectKey(id)].media
  }

  // Records have the type their key says, and objects know their own id.
  ghost predicate Typed(store: Store) {
    && (forall k :: k in store ==> k != NoKey && k.id >= 0)
    && (forall id :: ObjectKey(id) in store ==>
          HasObject(store, id) && Obj(store, id).id == id && !Obj(store, id).data.NoData?)
    && (forall id :: ResourceKey(id) in store ==> store[ResourceKey(id)].ResourceRecord?)
  }

  ghost predicate Rooted(store: Store) {
    HasObject(store, ROOT_ID) && Obj(store, ROOT_ID).data.MediaContainer? && Obj(store, ROOT_ID).parentId == -1
  }

  // Every other object is listed by its parent, which has a smaller id.
  ghost predicate ParentsList(store: Store) {
    forall id :: HasObject(store, id) && id != ROOT_ID ==>
      var parent := Obj(store, id).parentId;
      parent < id && HasObject(store, parent) && ObjectKey(id) in ChildKeys(Obj(store, parent))
  }

  // Every listed child exists and names the container that lists it.
  ghost predicate ChildrenExist(store: Store) {
    forall id, i :: HasObject(store, id) && 0 <= i < |ChildKeys(Obj(store, id))| ==>
      var key := ChildKeys(Obj(store, id))[i];
      key.ObjectKey? && key.id != ROOT_ID && HasObject(store, key.id) && Obj(store, key.id).parentId == id
  }

  ghost predicate NoRepeats<T>(s: seq<T>) {
    forall i, j :: 0 <= i < j < |s| ==> s[i] != s[j]
  }

  ghost predicate AscendingIds(keys: seq<LibraryKey>) {
    && (forall i :: 0 <= i < |keys| ==> keys[i].ObjectKey?)
    && (forall i, j :: 0 <= i < j < |keys| ==> keys[i].id < keys[j].id)
  }

  // Children are listed in the order of their ids, so none is listed twice.
  ghost predicate ChildrenAscending(store: Store) {
    forall id :: HasObject(store, id) ==> AscendingIds(ChildKeys(Obj(store, id)))
  }

  // References and resources are in bijection.
  ghost predicate RefsResolve(store: Store) {
    forall id, i :: HasObject(store, id) && 0 <= i < |Refs(Obj(store, id))| ==>
      Refs(Obj(store, id))[i].ResourceKey? && Refs(Obj(store, id))[i] in store
  }

  ghost predicate RefsUnique(store: Store) {
    forall a, i, b, j ::
      (&& HasObject(store, a) && 0 <= i < |Refs(Obj(store, a))|
       && HasObject(store, b) && 0 <= j < |Refs(Obj(store, b))|
       && Refs(Obj(store, a))[i] == Refs(Obj(store, b))[j])
      ==> a == b && i == j
  }

  ghost predicate ResourcesUsed(store: Store) {
    forall r :: ResourceKey(r) in store ==>
      exists id :: HasObject(store, id) && ResourceKey(r) in Refs(Obj(store, id))
  }

  // The root's only child is the movies folder.
  ghost predicate MoviesOnly(store: Store) {
    HasObject(store, ROOT_ID) ==>
      && |ChildKeys(Obj(store, ROOT_ID))| <= 1
      && forall id :: HasObject(store, id) && ObjectKey(id) in ChildKeys(Obj(store, ROOT_ID)) ==>
           Obj(store, id).dcTitle == "Movies" && Obj(store, id).data.MediaContainer?
  }

  ghost predicate ContainersUndated(store: Store) {
    forall id :: HasObject(store, id) && Obj(store, id).data.MediaContainer? ==> Obj(store, id).dcDate == 0
  }

  ghost predicate Consistent(store: Store) {
    && Typed(store) && Rooted(store)
    && ParentsList(store) && ChildrenExist(store) && ChildrenAscending(store)
    && RefsResolve(store) && RefsUnique(store) && ResourcesUsed(store)
    && MoviesOnly(store) && ContainersUndated(store)
  }

  lemma FreshStoreConsistent()
    ensures Consistent(FreshStore())
  {
    assert forall id :: HasObject(FreshStore(), id) ==> id == ROOT_ID;
  }

  // All stored ids are below the counters.
  ghost predicate Above(store: Store, nextObject: int, nextResource: int) {
    && (forall id :: ObjectKey(id) in store ==> id < nextObject)
    && (forall id :: ResourceKey(id) in store ==> id < nextResource)
  }

  // ----- Batches that keep the invariant -----

  // An object refers to each resource of an interval exactly once.
  ghost predicate Covers(media: MediaObject, lo: int, hi: int) {
    && |Refs(media)| == hi - lo
    && NoRepeats(Refs(media))
    && (forall i :: 0 <= i < |Refs(media)| ==>
          Refs(media)[i].ResourceKey? && lo <= Refs(media)[i].id < hi)
    && (forall r :: lo <= r < hi ==> ResourceKey(r) in Refs(media))
  }

  // Objects that share out an interval of resources, in order.
  ghost predicate Partition(items: seq<MediaObject>, lo: int, hi: int) {
    if items == [] then lo == hi
    else
      var n := |items| - 1;
      var middle := hi - |Refs(items[n])|;
      Covers(items[n], middle, hi) && lo <= middle && Partition(items[..n], lo, middle)
  }

  lemma {:induction false} PartitionRange(items: seq<MediaObject>, lo: int, hi: int)
    requires Partition(items, lo, hi)
    ensures lo <= hi
    ensures forall a, i :: 0 <= a < |items| && 0 <= i < |Refs(items[a])| ==>
              Refs(items[a])[i].ResourceKey? && lo <= Refs(items[a])[i].id < hi
  {
    hide Refs;
    if items != [] {
      var n := |items| - 1;
      PartitionRange(items[..n], lo, hi - |Refs(items[n])|);
      assert forall a :: 0 <= a < n ==> items[..n][a] == items[a];
    }
  }

  lemma {:induction false} PartitionUnique(items: seq<MediaObject>, lo: int, hi: int, a: nat, i: nat, b: nat, j: nat)
    requires Partition(items, lo, hi)
    requires a < |items| && i < |Refs(items[a])| && b < |items| && j < |Refs(items[b])|
    requires Refs(items[a])[i] == Refs(items[b])[j]
    ensures a == b && i == j
  {
    hide Refs;
    var n := |items| - 1;
    var front := items[..n];
    PartitionRange(front, lo, hi - |Refs(items[n])|);
    assert forall c :: 0 <= c < n ==> front[c] == items[c];
    if a < n && b < n {
      PartitionUnique(front, lo, hi - |Refs(items[n])|, a, i, b, j);
    }
  }

  lemma {:induction false} PartitionOnto(items: seq<MediaObject>, lo: int, hi: int, r: int) returns (a: nat)
    requires Partition(items, lo, hi) && lo <= r < hi
    ensures a < |items| && ResourceKey(r) in Refs(items[a])
  {
    hide Refs;
    var n := |items| - 1;
    var middle := hi - |Refs(items[n])|;
    if r < middle {
      a := PartitionOnto(items[..n], lo, middle, r);
    } else {
      a := n;
    }
  }

  ghost predicate NewObject(media: MediaObject) {
    match media.data
    case NoData => false
    case MediaContainer(objects) => objects == [] && media.dcDate == 0
    case MediaItem(_) => true
  }

  // A batch that numbers its objects and resources from the counters on, puts
  // its objects under one parent, and refers to each of its resources once.
  ghost predicate BatchOk(batch: Batch, nextObject: int, nextResource: int) {
    && nextObject >= 0 && nextResource >= 0
    && ParentsMatch(batch)
    && (forall i :: 0 <= i < |batch.items| ==> batch.items[i].id == nextObject + i && NewObject(batch.items[i]))
    && (forall i :: 0 <= i < |batch.resources| ==> batch.resources[i].key == nextResource + i)
    && Partition(batch.items, nextResource, nextResource + |batch.resources|)
  }

  // The only batch under the root: the movies folder, when there is none.
  ghost predicate RootBatchOk(batch: Batch, store: Store) {
    batch.parent == ROOT_ID ==>
      && HasObject(store, ROOT_ID) && ChildKeys(Obj(store, ROOT_ID)) == []
      && |batch.items| == 1 && batch.items[0].dcTitle == "Movies" && batch.items[0].data.MediaContainer?
  }

  // What every step below assumes.
  ghost predicate Step(batch: Batch, before: Store, after: Store, nextObject: int, nextResource: int) {
    && Consistent(before) && Above(before, nextObject, nextResource)
    && BatchOk(batch, nextObject, nextResource) && RootBatchOk(batch, before)
    && ReadContainer(before, batch.parent).Ok?
    && Appended(batch, before, after)
  }

  lemma OkIsFresh(batch: Batch, store: Store, nextObject: int, nextResource: int)
    requires Consistent(store) && Above(store, nextObject, nextResource) && BatchOk(batch, nextObject, nextResource)
    requires ReadContainer(store, batch.parent).Ok?
    ensures FreshIds(batch, store)
  {
    assert HasObject(store, batch.parent);
  }

  // Where an object of the new store comes from.
  datatype Origin = Kept | Parent | Added(index: nat)

  ghost function OriginOf(batch: Batch, nextObject: int, id: int): Origin {
    if id == batch.parent then Parent
    else if nextObject <= id < nextObject + |batch.items| then Added(id - nextObject)
    else Kept
  }

  lemma ObjectAfter(batch: Batch, before: Store, after: Store, nextObject: int, nextResource: int, id: int)
    requires Step(batch, before, after, nextObject, nextResource) && HasObject(after, id)
    ensures match OriginOf(batch, nextObject, id)
            case Kept => HasObject(before, id) && Obj(after, id) == Obj(before, id)
            case Parent => && HasObject(before, id) && Obj(before, id).data.MediaContainer?
                           && Obj(after, id) == Obj(before, id).(
                                data := MediaContainer(ChildKeys(Obj(before, id)) + ObjectKeys(batch.items)))
            case Added(i) => i < |batch.items| && Obj(after, id) == batch.items[i] && !HasObject(before, id)
  {
    hide Typed, Rooted, ParentsList, ChildrenExist, ChildrenAscending, RefsResolve, RefsUnique, ResourcesUsed,
      MoviesOnly, Partition;
    assert ObjectKey(id) in after;
    if ObjectKey(id) !in before {
      assert Introduces(batch, ObjectKey(id));
    }
  }

  lemma ObjectStays(batch: Batch, before: Store, after: Store, nextObject: int, nextResource: int, id: int)
    requires Step(batch, before, after, nextObject, nextResource)
    requires HasObject(before, id) || 0 <= id - nextObject < |batch.items|
    ensures HasObject(after, id)
  {
    hide Typed, Rooted, ParentsList, ChildrenExist, ChildrenAscending, RefsResolve, RefsUnique, ResourcesUsed,
      MoviesOnly, Partition;
    if 0 <= id - nextObject < |batch.items| {
      assert ObjectKey(batch.items[id - nextObject].id) == ObjectKey(id);
    }
  }

  // ----- Each part of the invariant survives a committed batch -----

  lemma ParentRefsKept(media: MediaObject, children: seq<LibraryKey>)
    requires media.data.MediaContainer?
    ensures Refs(media.(data := MediaContainer(children))) == Refs(media)
  {
  }

  lemma TypedKept(batch: Batch, before: Store, after: Store, nextObject: int, nextResource: int)
    requires Step(batch, before, after, nextObject, nextResource)
    ensures Typed(after) && ContainersUndated(after) && Rooted(after)
  {
    hide ParentsList, ChildrenExist, ChildrenAscending, RefsResolve, RefsUnique, ResourcesUsed, MoviesOnly, Partition,
      Refs, ObjectKeys;
    forall k | k in after ensures k != NoKey && k.id >= 0 && (k.ResourceKey? ==> after[k].ResourceRecord?) {
      if k !in before {
        assert Introduces(batch, k);
      }
    }
    forall id | ObjectKey(id) in after
      ensures HasObject(after, id) && Obj(after, id).id == id && !Obj(after, id).data.NoData?
      ensures Obj(after, id).data.MediaContainer? ==> Obj(after, id).dcDate == 0
    {
      if ObjectKey(id) !in before {
        assert Introduces(batch, ObjectKey(id));
        var i :| 0 <= i < |batch.items| && ObjectKey(id) == ObjectKey(batch.items[i].id);
      }
      assert HasObject(after, id);
      ObjectAfter(batch, before, after, nextObject, nextResource, id);
    }
    ObjectStays(batch, before, after, nextObject, nextResource, ROOT_ID);
    ObjectAfter(batch, before, after, nextObject, nextResource, ROOT_ID);
  }

  lemma ParentsListKept(batch: Batch, before: Store, after: Store, nextObject: int, nextResource: int)
    requires Step(batch, before, after, nextObject, nextResource)
    ensures ParentsList(after)
  {
    hide ChildrenExist, ChildrenAscending, RefsResolve, RefsUnique, ResourcesUsed, MoviesOnly, Partition, Refs,
      Appended, ContainersUndated;
    forall id | HasObject(after, id) && id != ROOT_ID
      ensures Obj(after, id).parentId < id && HasObject(after, Obj(after, id).parentId)
      ensures ObjectKey(id) in ChildKeys(Obj(after, Obj(after, id).parentId))
    {
      ObjectAfter(batch, before, after, nextObject, nextResource, id);
      var p := Obj(after, id).parentId;
      var origin := OriginOf(batch, nextObject, id);
      assert HasObject(before, p);
      ObjectStays(batch, before, after, nextObject, nextResource, p);
      ObjectAfter(batch, before, after, nextObject, nextResource, p);
      if origin.Added? {
        assert ObjectKeys(batch.items)[origin.index] == ObjectKey(id);
      }
    }
  }

  lemma ChildrenExistKept(batch: Batch, before: Store, after: Store, nextObject: int, nextResource: int)
    requires Step(batch, before, after, nextObject, nextResource)
    ensures ChildrenExist(after)
  {
    hide ParentsList, ChildrenAscending, RefsResolve, RefsUnique, ResourcesUsed, MoviesOnly, Partition, Refs,
      Appended, ContainersUndated;
    forall id, i | HasObject(after, id) && 0 <= i < |ChildKeys(Obj(after, id))|
      ensures var key := ChildKeys(Obj(after, id))[i];
              key.ObjectKey? && key.id != ROOT_ID && HasObject(after, key.id) && Obj(after, key.id).parentId == id
    {
      ObjectAfter(batch, before, after, nextObject, nextResource, id);
      var key := ChildKeys(Obj(after, id))[i];
      var origin := OriginOf(batch, nextObject, id);
      if origin.Parent? && i >= |ChildKeys(Obj(before, id))| {
        var k := i - |ChildKeys(Obj(before, id))|;
        assert key == ObjectKeys(batch.items)[k];
        ObjectStays(batch, before, after, nextObject, nextResource, key.id);
        ObjectAfter(batch, before, after, nextObject, nextResource, key.id);
        assert HasObject(before, ROOT_ID);
      } else if !origin.Added? {
        assert key == ChildKeys(Obj(before, id))[i];
        ObjectStays(batch, before, after, nextObject, nextResource, key.id);
        ObjectAfter(batch, before, after, nextObject, nextResource, key.id);
      }
    }
  }

  lemma ChildrenAscendingKept(batch: Batch, before: Store, after: Store, nextObject: int, nextResource: int)
    requires Step(batch, before, after, nextObject, nextResource)
    ensures ChildrenAscending(after)
  {
    hide ParentsList, RefsResolve, RefsUnique, ResourcesUsed, MoviesOnly, Partition, Refs, Appended, ContainersUndated;
    forall id | HasObject(after, id) ensures AscendingIds(ChildKeys(Obj(after, id))) {
      ObjectAfter(batch, before, after, nextObject, nextResource, id);
      if OriginOf(batch, nextObject, id).Parent? {
        var old_ := ChildKeys(Obj(before, id));
        assert AscendingIds(old_);
        forall i | 0 <= i < |old_| ensures old_[i].ObjectKey? && old_[i].id < nextObject {
          assert HasObject(before, old_[i].id);
        }
      }
    }
  }

  lemma RefsResolveKept(batch: Batch, before: Store, after: Store, nextObject: int, nextResource: int)
    requires Step(batch, before, after, nextObject, nextResource)
    ensures RefsResolve(after)
  {
    hide ParentsList, ChildrenExist, ChildrenAscending, RefsUnique, ResourcesUsed, MoviesOnly, Partition, Refs,
      ContainersUndated;
    PartitionRange(batch.items, nextResource, nextResource + |batch.resources|);
    forall id, i | HasObject(after, id) && 0 <= i < |Refs(Obj(after, id))|
      ensures Refs(Obj(after, id))[i].ResourceKey? && Refs(Obj(after, id))[i] in after
    {
      ObjectAfter(batch, before, after, nextObject, nextResource, id);
      match OriginOf(batch, nextObject, id)
      case Added(k) =>
        var r := Refs(batch.items[k])[i].id - nextResource;
        assert batch.resources[r].key == Refs(batch.items[k])[i].id;
      case Parent => ParentRefsKept(Obj(before, id), ChildKeys(Obj(before, id)) + ObjectKeys(batch.items));
      case Kept =>
    }
  }

  lemma RefsUniqueKept(batch: Batch, before: Store, after: Store, nextObject: int, nextResource: int)
    requires Step(batch, before, after, nextObject, nextResource)
    ensures RefsUnique(after)
  {
    hide ParentsList, ChildrenExist, ChildrenAscending, ResourcesUsed, MoviesOnly, Partition, Refs, Appended,
      ContainersUndated, Typed, Rooted;
    PartitionRange(batch.items, nextResource, nextResource + |batch.resources|);
    forall a, i, b, j | HasObject(after, a) && 0 <= i < |Refs(Obj(after, a))| &&
                        HasObject(after, b) && 0 <= j < |Refs(Obj(after, b))| &&
                        Refs(Obj(after, a))[i] == Refs(Obj(after, b))[j]
      ensures a == b && i == j
    {
      RefsAfter(batch, before, after, nextObject, nextResource, a, i);
      RefsAfter(batch, before, after, nextObject, nextResource, b, j);
      var from_a, from_b := OriginOf(batch, nextObject, a), OriginOf(batch, nextObject, b);
      if from_a.Added? && from_b.Added? {
        PartitionUnique(batch.items, nextResource, nextResource + |batch.resources|, from_a.index, i, from_b.index, j);
      }
    }
  }

  // A reference in the new store was there before, below the counter, or is
  // one of the batch, from the counter on.
  lemma RefsAfter(batch: Batch, before: Store, after: Store, nextObject: int, nextResource: int, id: int, i: int)
    requires Step(batch, before, after, nextObject, nextResource)
    requires HasObject(after, id) && 0 <= i < |Refs(Obj(after, id))|
    ensures match OriginOf(batch, nextObject, id)
            case Added(k) => && k < |batch.items| && Refs(Obj(after, id)) == Refs(batch.items[k])
                             && Refs(Obj(after, id))[i].ResourceKey? && Refs(Obj(after, id))[i].id >= nextResource
            case _ => && HasObject(before, id) && Refs(Obj(after, id)) == Refs(Obj(before, id))
                      && Refs(Obj(after, id))[i].ResourceKey? && Refs(Obj(after, id))[i].id < nextResource
  {
    hide ParentsList, ChildrenExist, ChildrenAscending, RefsUnique, ResourcesUsed, MoviesOnly, Partition, Refs,
      Appended, ContainersUndated, Typed, Rooted;
    PartitionRange(batch.items, nextResource, nextResource + |batch.resources|);
    ObjectAfter(batch, before, after, nextObject, nextResource, id);
    match OriginOf(batch, nextObject, id)
    case Parent => ParentRefsKept(Obj(before, id), ChildKeys(Obj(before, id)) + ObjectKeys(batch.items));
    case _ =>
  }

  lemma ResourcesUsedKept(batch: Batch, before: Store, after: Store, nextObject: int, nextResource: int)
    requires Step(batch, before, after, nextObject, nextResource)
    ensures ResourcesUsed(after)
  {
    hide ParentsList, ChildrenExist, ChildrenAscending, RefsResolve, RefsUnique, MoviesOnly, Partition, Refs,
      ContainersUndated, Typed, Rooted;
    forall r | ResourceKey(r) in after
      ensures exists id :: HasObject(after, id) && ResourceKey(r) in Refs(Obj(after, id))
    {
      if ResourceKey(r) in before {
        var id :| HasObject(before, id) && ResourceKey(r) in Refs(Obj(before, id));
        ObjectStays(batch, before, after, nextObject, nextResource, id);
        ObjectAfter(batch, before, after, nextObject, nextResource, id);
        if OriginOf(batch, nextObject, id).Parent? {
          ParentRefsKept(Obj(before, id), ChildKeys(Obj(before, id)) + ObjectKeys(batch.items));
        }
        assert ResourceKey(r) in Refs(Obj(after, id));
      } else {
        assert Introduces(batch, ResourceKey(r));
        var a := PartitionOnto(batch.items, nextResource, nextResource + |batch.resources|, r);
        var id := nextObject + a;
        ObjectStays(batch, before, after, nextObject, nextResource, id);
        assert Obj(after, id) == batch.items[a];
      }
    }
  }

  lemma MoviesOnlyKept(batch: Batch, before: Store, after: Store, nextObject: int, nextResource: int)
    requires Step(batch, before, after, nextObject, nextResource)
    ensures MoviesOnly(after)
  {
    hide ParentsList, ChildrenAscending, RefsResolve, RefsUnique, ResourcesUsed, Partition, Refs, Appended,
      ContainersUndated;
    ObjectStays(batch, before, after, nextObject, nextResource, ROOT_ID);
    ObjectAfter(batch, before, after, nextObject, nextResource, ROOT_ID);
    forall id | HasObject(after, id) && ObjectKey(id) in ChildKeys(Obj(after, ROOT_ID))
      ensures Obj(after, id).dcTitle == "Movies" && Obj(after, id).data.MediaContainer?
    {
      ObjectAfter(batch, before, after, nextObject, nextResource, id);
    }
  }

  // A committed batch keeps the whole invariant and stays below the counters.
  lemma AppendKeepsConsistent(batch: Batch, before: Store, after: Store, nextObject: int, nextResource: int)
    requires Step(batch, before, after, nextObject, nextResource)
    ensures Consistent(after)
    ensures Above(after, nextObject + |batch.items|, nextResource + |batch.resources|)
  {
    hide Typed, Rooted, ParentsList, ChildrenExist, ChildrenAscending, RefsResolve, RefsUnique, ResourcesUsed,
      MoviesOnly, Partition, ContainersUndated;
    TypedKept(batch, before, after, nextObject, nextResource);
    ParentsListKept(batch, before, after, nextObject, nextResource);
    ChildrenExistKept(batch, before, after, nextObject, nextResource);
    ChildrenAscendingKept(batch, before, after, nextObject, nextResource);
    RefsResolveKept(batch, before, after, nextObject, nextResource);
    RefsUniqueKept(batch, before, after, nextObject, nextResource);
    ResourcesUsedKept(batch, before, after, nextObject, nextResource);
    MoviesOnlyKept(batch, before, after, nextObject, nextResource);
    forall k | k in after
      ensures match k
              case ObjectKey(id) => id < nextObject + |batch.items|
              case ResourceKey(id) => id < nextResource + |batch.resources|
              case NoKey => true
    {
      if k !in before {
        assert Introduces(batch, k);
      }
    }
  }
}
