// What the objects of a store show, and that a run's objects are there.
module StoredViews {
  import opened Wrappers
  import opened Keys
  import opened Records
  import opened StoreModel
  import opened ScanWalk
  import opened StoreInvariant
  import opened StoreRuns
  import opened Expected
  import opened ScanViews

  ghost function StoredTarget(store: Store, key: LibraryKey): Option<Target> {
    if key in store && store[key].ResourceRecord? then Some(TargetText(store[key].resource)) else None
  }

  ghost function StoredFileLinks(store: Store, refs: seq<ResourceRef>): (links: seq<FileLink>)
    ensures |links| == |refs|
  {
    seq(|refs|, i requires 0 <= i < |refs| =>
      FileLink(StoredTarget(store, refs[i].ref), ProtocolText(refs[i].protocolInfo)))
  }

  ghost function StoredArtLinks(store: Store, refs: seq<Artwork>): (links: seq<ArtLink>)
    ensures |links| == |refs|
  {
    seq(|refs|, i requires 0 <= i < |refs| => ArtLink(StoredTarget(store, refs[i].ref), refs[i].artType))
  }

  // What a stored object shows.
  ghost function StoredView(store: Store, media: MediaObject): ObjectView {
    if media.data.MediaItem? then
      ItemView(ClassText(media.upnpClass), media.dcTitle, media.dcDate,
               StoredFileLinks(store, media.data.resources), StoredArtLinks(store, media.artwork))
    else FolderView(ClassText(media.upnpClass), media.dcTitle, StoredArtLinks(store, media.artwork))
  }

  ghost function PlacedIn(store: Store, id: int): Placed
    requires HasObject(store, id)
  {
    Placed(id, Obj(store, id).parentId, StoredView(store, Obj(store, id)))
  }

  // The objects among n consecutive ids, in the order of their ids.
  ghost function StoredObjects(store: Store, first: int, n: nat): seq<Placed> {
    if n == 0 then []
    else
      var id := first + n - 1;
      StoredObjects(store, first, n - 1) + if HasObject(store, id) then [PlacedIn(store, id)] else []
  }

  lemma NoStoredObjects(store: Store, first: int)
    ensures StoredObjects(store, first, 0) == []
  {
  }

  lemma {:induction false} StoredObjectsSplit(store: Store, first: int, n: nat, m: nat)
    ensures StoredObjects(store, first, n + m) == StoredObjects(store, first, n) + StoredObjects(store, first + n, m)
    decreases m
  {
    hide PlacedIn;
    if m > 0 {
      StoredObjectsSplit(store, first, n, m - 1);
    }
  }

  // The records are in the store, as Holds says, for a run's own items.
  ghost predicate Stored(items: seq<MediaObject>, resources: seq<StoredResource>, store: Store,
                         nextObject: int, nextResource: int)
  {
    && (forall id :: nextObject <= id < nextObject + |items| ==>
          HasObject(store, id) && SameButChildren(items[id - nextObject], Obj(store, id)))
    && (forall id :: nextResource <= id < nextResource + |resources| ==>
          ResourceKey(id) in store
          && store[ResourceKey(id)] == ResourceRecord(resources[id - nextResource].resource))
  }

  lemma StoredSplit(a: seq<MediaObject>, ra: seq<StoredResource>, b: seq<MediaObject>, rb: seq<StoredResource>,
                    store: Store, nextObject: int, nextResource: int)
    requires Stored(a + b, ra + rb, store, nextObject, nextResource)
    ensures Stored(a, ra, store, nextObject, nextResource)
    ensures Stored(b, rb, store, nextObject + |a|, nextResource + |ra|)
  {
    forall id | nextObject + |a| <= id < nextObject + |a| + |b|
      ensures HasObject(store, id) && SameButChildren(b[id - nextObject - |a|], Obj(store, id))
    {
      assert b[id - nextObject - |a|] == (a + b)[id - nextObject];
    }
    forall id | nextResource + |ra| <= id < nextResource + |ra| + |rb|
      ensures ResourceKey(id) in store
              && store[ResourceKey(id)] == ResourceRecord(rb[id - nextResource - |ra|].resource)
    {
      assert rb[id - nextResource - |ra|] == (ra + rb)[id - nextResource];
    }
    forall id | nextObject <= id < nextObject + |a|
      ensures HasObject(store, id) && SameButChildren(a[id - nextObject], Obj(store, id))
    {
      assert a[id - nextObject] == (a + b)[id - nextObject];
    }
    forall id | nextResource <= id < nextResource + |ra|
      ensures ResourceKey(id) in store
              && store[ResourceKey(id)] == ResourceRecord(ra[id - nextResource].resource)
    {
      assert ra[id - nextResource] == (ra + rb)[id - nextResource];
    }
  }

  // Objects refer to their batch's resources.
  ghost predicate RefsInRange(items: seq<MediaObject>, lo: int, hi: int) {
    forall i, j :: 0 <= i < |items| && 0 <= j < |Refs(items[i])| ==>
      Refs(items[i])[j].ResourceKey? && lo <= Refs(items[i])[j].id < hi
  }

  // In a store that has a batch's resources, its objects lead to the same there.
  lemma StoredViewIs(media: MediaObject, resources: seq<StoredResource>, store: Store, nextObject: int, first: int)
    requires RefsInRange([media], first, first + |resources|)
    requires Stored([], resources, store, nextObject, first)
    ensures StoredView(store, media) == ViewIn(media, resources, first)
  {
    hide TargetText, ProtocolText, ClassText;
    var refs := Refs(media);
    assert [media][0] == media;
    forall j | 0 <= j < |refs| ensures StoredTarget(store, refs[j]) == TargetOf(refs[j], resources, first) {
      assert refs[j].ResourceKey? && first <= refs[j].id < first + |resources|;
      assert ResourceKey(refs[j].id) in store;
    }
    forall j | 0 <= j < |media.artwork|
      ensures StoredTarget(store, media.artwork[j].ref) == TargetOf(media.artwork[j].ref, resources, first)
    {
      assert refs[j] == media.artwork[j].ref;
    }
    if media.data.MediaItem? {
      forall j | 0 <= j < |media.data.resources|
        ensures StoredTarget(store, media.data.resources[j].ref)
                == TargetOf(media.data.resources[j].ref, resources, first)
      {
        assert refs[|media.artwork| + j] == media.data.resources[j].ref;
      }
    }
  }

  // New children do not show in a container's own view.
  lemma SameView(store: Store, before: MediaObject, after: MediaObject)
    requires SameButChildren(before, after)
    ensures after.id == before.id && after.parentId == before.parentId
    ensures StoredView(store, after) == StoredView(store, before)
  {
  }

  lemma {:induction false} BatchStored(items: seq<MediaObject>, resources: seq<StoredResource>, store: Store,
                                       nextObject: int, nextResource: int)
    requires Stored(items, resources, store, nextObject, nextResource)
    requires RefsInRange(items, nextResource, nextResource + |resources|)
    requires forall i :: 0 <= i < |items| ==> items[i].id == nextObject + i
    ensures StoredObjects(store, nextObject, |items|) == Views(items, resources, nextResource)
  {
    hide StoredView, ViewIn, Refs;
    if items != [] {
      var n := |items| - 1;
      assert items == items[..n] + [items[n]];
      assert resources + [] == resources;
      StoredSplit(items[..n], resources, [items[n]], [], store, nextObject, nextResource);
      BatchStored(items[..n], resources, store, nextObject, nextResource);
      var id := nextObject + n;
      assert HasObject(store, id) && SameButChildren(items[n], Obj(store, id));
      SameView(store, items[n], Obj(store, id));
      StoredViewIs(items[n], resources, store, nextObject, nextResource);
    }
  }

  lemma BatchParts(batch: Batch, nextObject: int, nextResource: int)
    requires BatchOk(batch, nextObject, nextResource)
    ensures RefsInRange(batch.items, nextResource, nextResource + |batch.resources|)
    ensures forall i :: 0 <= i < |batch.items| ==> batch.items[i].id == nextObject + i
  {
    hide Refs;
    PartitionRange(batch.items, nextResource, nextResource + |batch.resources|);
  }

  // A run's objects show in the store what they show in the run.
  lemma {:induction false} RunStored(batches: seq<Batch>, known: set<int>, store: Store, nextObject: int,
                                     nextResource: int)
    requires RunOk(batches, known, nextObject, nextResource)
    requires Stored(Items(batches), Resources(batches), store, nextObject, nextResource)
    ensures StoredObjects(store, nextObject, |Items(batches)|) == PlanViews(batches, nextResource)
    decreases |batches|
  {
    hide BatchOk, Containers, StoredObjects, Views, Stored, RefsInRange;
    if batches == [] {
      NoStoredObjects(store, nextObject);
    } else {
      var batch, rest := batches[0], batches[1..];
      var no, nr := nextObject + |batch.items|, nextResource + |batch.resources|;
      StoredSplit(batch.items, batch.resources, Items(rest), Resources(rest), store, nextObject, nextResource);
      BatchParts(batch, nextObject, nextResource);
      BatchStored(batch.items, batch.resources, store, nextObject, nextResource);
      RunStored(rest, known + Containers(batch.items), store, no, nr);
      StoredObjectsSplit(store, nextObject, |batch.items|, |Items(rest)|);
    }
  }

  // ----- Objects that stay -----

  // What was there before shows the same after a run.
  lemma OldViewKept(before: Store, after: Store, id: int)
    requires Grown(before, after) && RefsResolve(before) && Typed(before) && HasObject(before, id)
    ensures HasObject(after, id) && PlacedIn(after, id) == PlacedIn(before, id)
  {
    hide TargetText, ProtocolText, ClassText;
    var media := Obj(before, id);
    assert SameButChildren(media, Obj(after, id));
    forall j | 0 <= j < |media.artwork|
      ensures StoredTarget(after, media.artwork[j].ref) == StoredTarget(before, media.artwork[j].ref)
    {
      assert Refs(media)[j] == media.artwork[j].ref;
      assert ResourceKey(media.artwork[j].ref.id) in before;
    }
    if media.data.MediaItem? {
      forall j | 0 <= j < |media.data.resources|
        ensures StoredTarget(after, media.data.resources[j].ref) == StoredTarget(before, media.data.resources[j].ref)
      {
        assert Refs(media)[|media.artwork| + j] == media.data.resources[j].ref;
        assert ResourceKey(media.data.resources[j].ref.id) in before;
      }
    }
    SameView(after, media, Obj(after, id));
  }

  lemma {:induction false} OldObjectsKept(before: Store, after: Store, n: nat)
    requires Grown(before, after) && RefsResolve(before) && Typed(before)
    requires forall id :: id < n && HasObject(after, id) ==> HasObject(before, id)
    ensures StoredObjects(after, 0, n) == StoredObjects(before, 0, n)
  {
    hide PlacedIn, Typed, RefsResolve, Grown;
    if n > 0 {
      OldObjectsKept(before, after, n - 1);
      if HasObject(before, n - 1) {
        OldViewKept(before, after, n - 1);
      }
    }
  }
}
