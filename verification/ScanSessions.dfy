// Scans of one database, by one scanner or several: every stored state is
// consistent, whatever writes fail; and without failed writes no scan raises,
// every video gets its item, and no id is given out twice.
module ScanSessions {
  import opened Wrappers
  import opened Keys
  import opened Records
  import opened StoreModel
  import opened StoreService
  import opened Folders
  import opened ScanWalk
  import opened ScanPlan
  import opened MovieScanner
  import opened StoreInvariant
  import opened StoreRuns
  import opened ScanProperties
  import opened Expected
  import opened ScanVideos
  import opened ScanViews
  import opened StoredViews

  // ----- Counters -----

  lemma CountersAbove(store: Store)
    requires Typed(store) && Rooted(store)
    ensures Above(store, NextId(store, ObjectKind), NextId(store, ResourceKind))
    ensures NextId(store, ObjectKind) > 0 && NextId(store, ResourceKind) >= 0
  {
    forall id | ObjectKey(id) in store ensures id < NextId(store, ObjectKind) {
      assert HasKind(ObjectKey(id), ObjectKind);
    }
    forall id | ResourceKey(id) in store ensures id < NextId(store, ResourceKind) {
      assert HasKind(ResourceKey(id), ResourceKind);
    }
    assert ObjectKey(ROOT_ID) in store;
    if k :| k in store && HasKind(k, ResourceKind) {
      assert k == ResourceKey(k.id);
    }
  }

  // ----- Finding the movies folder -----

  // The memory of a scanner is the movies folder of the store, or nothing.
  ghost predicate Remembers(store: Store, remembered: int) {
    remembered > 0 ==>
      && HasObject(store, ROOT_ID) && ObjectKey(remembered) in ChildKeys(Obj(store, ROOT_ID))
      && HasObject(store, remembered) && Obj(store, remembered).data.MediaContainer?
  }

  // In a consistent store the search finds the root's child, if it has one.
  lemma FindMoviesFinds(store: Store)
    requires Consistent(store)
    ensures match FindMovies(store)
            case Err(_) => false
            case Ok(None) => ChildKeys(Obj(store, ROOT_ID)) == []
            case Ok(Some(id)) => id > 0 && Remembers(store, id)
  {
    hide ParentsList, ChildrenAscending, RefsResolve, RefsUnique, ResourcesUsed, ContainersUndated;
    var keys := ChildKeys(Obj(store, ROOT_ID));
    if keys != [] {
      var id := keys[0].id;
      assert HasObject(store, id) && keys[0] == ObjectKey(id) && keys[0] in keys;
      assert FindByTitle(store, keys) == Ok(Some(id));
    }
  }

  // ----- Batches of a whole scan -----

  ghost predicate CreatesMovies(disk: Disk, remembered: int) {
    remembered <= 0 && FindMovies(disk.store) == Ok(None)
  }

  // The batch of the movies folder, if a scan makes one.
  ghost function FirstBatches(disk: Disk, remembered: int): seq<Batch> {
    if CreatesMovies(disk, remembered) then [MoviesBatch(NextId(disk.store, ObjectKind))] else []
  }

  // All batches of a scan, the movies folder included.
  ghost function Written(disk: Disk, remembered: int, path: string, entries: seq<FsEntry>,
                         config: LibraryConfig): seq<Batch>
  {
    var search := MoviesFolderOf(disk, remembered, NextId(disk.store, ObjectKind));
    FirstBatches(disk, remembered)
    + ScanBatches(path, entries, config, search.moviesFolder, search.nextObject, NextId(disk.store, ResourceKind)).batches
  }

  lemma MoviesBatchOk(store: Store, nextObject: int, nextResource: int)
    requires Consistent(store) && ChildKeys(Obj(store, ROOT_ID)) == [] && nextObject > 0 && nextResource >= 0
    ensures BatchOk(MoviesBatch(nextObject), nextObject, nextResource)
    ensures RootBatchOk(MoviesBatch(nextObject), store)
    ensures Containers(MoviesBatch(nextObject).items) == {nextObject}
  {
    hide Typed, ParentsList, ChildrenExist, ChildrenAscending, RefsResolve, RefsUnique, ResourcesUsed,
      ContainersUndated, MoviesOnly, Partition;
    MoviesFolderCovers(nextObject, nextResource);
    assert MoviesBatch(nextObject).items[0].id == nextObject;
  }

  lemma MoviesFolderCovers(id: int, nextResource: int)
    ensures Partition([MoviesFolder(id, ROOT_ID)], nextResource, nextResource)
  {
    var item := MoviesFolder(id, ROOT_ID);
    assert Refs(item) == [];
    OnePartition(item, nextResource, nextResource);
  }

  lemma NoWalkYet(parent: int, nextObject: int, nextResource: int)
    requires parent > 0 && nextObject > 0 && nextResource >= 0
    ensures WalkOk(Progress([], nextObject, nextResource), {parent}, nextObject, nextResource)
    ensures KnownAfter(parent, Progress([], nextObject, nextResource), {parent})
  {
    NoContainers();
  }

  // The batches below the movies folder are sound.
  lemma ScanBatchesOk(path: string, entries: seq<FsEntry>, config: LibraryConfig,
                      parent: int, nextObject: int, nextResource: int)
    requires parent > 0 && nextObject > 0 && nextResource >= 0
    ensures WalkOk(ScanBatches(path, entries, config, parent, nextObject, nextResource),
                   {parent}, nextObject, nextResource)
  {
    hide WalkOk, KnownAfter, WalkTree, Planner;
    NoWalkYet(parent, nextObject, nextResource);
    WalkTreeOk(config, path, entries, false, parent, Progress([], nextObject, nextResource),
               {parent}, nextObject, nextResource);
  }

  // ----- Whatever writes fail -----

  // Once the search for the movies folder is over, the store is consistent
  // and the counters are above it.
  lemma SearchKeepsConsistent(disk: Disk, remembered: int)
    requires disk.raised.None? && Consistent(disk.store)
    ensures var no, nr := NextId(disk.store, ObjectKind), NextId(disk.store, ResourceKind);
            var search := MoviesFolderOf(disk, remembered, no);
            && Consistent(search.disk.store) && Above(search.disk.store, search.nextObject, nr)
            && search.moviesFolder > 0 && search.nextObject > 0 && nr >= 0
            && search.nextObject == no + if CreatesMovies(disk, remembered) then 1 else 0
  {
    hide Commit, ParentsList, ChildrenExist, ChildrenAscending, RefsResolve, RefsUnique, ResourcesUsed,
      ContainersUndated, MoviesOnly, FindMovies;
    var no, nr := NextId(disk.store, ObjectKind), NextId(disk.store, ResourceKind);
    CountersAbove(disk.store);
    FindMoviesFinds(disk.store);
    if CreatesMovies(disk, remembered) {
      MoviesBatchOk(disk.store, no, nr);
      CommitKeepsConsistent(MoviesBatch(no), disk, no, nr);
    }
  }

  // Wherever a scan stops, and whatever writes failed before, the store is consistent.
  lemma ScanKeepsConsistent(disk: Disk, remembered: int, path: string, entries: seq<FsEntry>, config: LibraryConfig)
    requires disk.raised.None? && Consistent(disk.store)
    ensures Consistent(Scan(disk, remembered, path, entries, config).disk.store)
    ensures
      var search := MoviesFolderOf(disk, remembered, NextId(disk.store, ObjectKind));
      var batches := ScanBatches(path, entries, config, search.moviesFolder, search.nextObject,
                                 NextId(disk.store, ResourceKind)).batches;
      forall n :: 0 <= n <= |batches| ==> Consistent(Execute(batches[..n], search.disk).store)
  {
    hide Consistent, Above, RunOk, MoviesFolderOf, ScanBatches, Execute, CreatesMovies;
    var no, nr := NextId(disk.store, ObjectKind), NextId(disk.store, ResourceKind);
    var search := MoviesFolderOf(disk, remembered, no);
    SearchKeepsConsistent(disk, remembered);
    ScanBatchesOk(path, entries, config, search.moviesFolder, search.nextObject, nr);
    var batches := ScanBatches(path, entries, config, search.moviesFolder, search.nextObject, nr).batches;
    RunKeepsConsistent(batches, {search.moviesFolder}, search.disk, search.nextObject, nr);
    EveryPrefixConsistent(batches, {search.moviesFolder}, search.disk, search.nextObject, nr);
  }

  // ----- Without failed writes -----

  lemma FirstBatchesAre(disk: Disk, remembered: int)
    ensures var no := NextId(disk.store, ObjectKind);
            var first := FirstBatches(disk, remembered);
            && Items(first) == (if CreatesMovies(disk, remembered) then [MoviesFolder(no, ROOT_ID)] else [])
            && Resources(first) == []
  {
    var no := NextId(disk.store, ObjectKind);
    assert [MoviesBatch(no)][1..] == [];
  }

  // A new movies folder is the root's child.
  lemma MoviesStored(batch: Batch, before: Store, after: Store, nextObject: int, nextResource: int)
    requires Step(batch, before, after, nextObject, nextResource) && batch == MoviesBatch(nextObject)
    ensures nextObject > 0 && Remembers(after, nextObject)
  {
    hide ParentsList, ChildrenExist, ChildrenAscending, RefsResolve, RefsUnique, ResourcesUsed, ContainersUndated,
      MoviesOnly, Partition, Appended;
    ObjectStays(batch, before, after, nextObject, nextResource, nextObject);
    ObjectStays(batch, before, after, nextObject, nextResource, ROOT_ID);
    assert HasObject(before, ROOT_ID);
    ObjectAfter(batch, before, after, nextObject, nextResource, nextObject);
    ObjectAfter(batch, before, after, nextObject, nextResource, ROOT_ID);
    var children := ChildKeys(Obj(before, ROOT_ID));
    assert (children + ObjectKeys(batch.items))[|children|] == ObjectKey(nextObject);
  }

  lemma SearchSucceeds(disk: Disk, remembered: int)
    requires disk.raised.None? && Consistent(disk.store)
    requires NoFailures(disk.outcomes) && Remembers(disk.store, remembered)
    ensures var no, nr := NextId(disk.store, ObjectKind), NextId(disk.store, ResourceKind);
            var search := MoviesFolderOf(disk, remembered, no);
            var first := FirstBatches(disk, remembered);
            && search.disk.raised.None? && NoFailures(search.disk.outcomes)
            && Grown(disk.store, search.disk.store)
            && Holds(Items(first), Resources(first), disk.store, search.disk.store, no, nr)
            && search.moviesFolder > 0 && Remembers(search.disk.store, search.moviesFolder)
            && search.nextObject == no + |Items(first)|
  {
    hide Commit, FindMovies, Step, Consistent, NoFailures, Grown, Holds, Above, BatchOk, RootBatchOk;
    var no, nr := NextId(disk.store, ObjectKind), NextId(disk.store, ResourceKind);
    assert Typed(disk.store) && Rooted(disk.store) by { assert Consistent(disk.store); ConsistentParts(disk.store); }
    CountersAbove(disk.store);
    FindMoviesFinds(disk.store);
    FirstBatchesAre(disk, remembered);
    if CreatesMovies(disk, remembered) {
      var batch := MoviesBatch(no);
      MoviesBatchOk(disk.store, no, nr);
      RootStored(disk.store);
      CommitSucceeds(batch, disk, no, nr);
      var after := Commit(batch, disk).store;
      StepGrows(batch, disk.store, after, no, nr);
      StepHolds(batch, disk.store, after, no, nr);
      MoviesStored(batch, disk.store, after, no, nr);
    } else {
      NothingHappens(disk.store, no, nr);
    }
  }

  lemma ConsistentParts(store: Store)
    requires Consistent(store)
    ensures Typed(store) && Rooted(store) && MoviesOnly(store)
  {
  }

  lemma RootStored(store: Store)
    requires Consistent(store)
    ensures AllStored({ROOT_ID}, store)
  {
  }

  lemma RemembersLater(before: Store, after: Store, remembered: int)
    requires Remembers(before, remembered) && Grown(before, after)
    ensures Remembers(after, remembered)
  {
    if remembered > 0 {
      assert HasObject(before, ROOT_ID) && HasObject(before, remembered);
      var keys := ChildKeys(Obj(before, ROOT_ID));
      var i :| 0 <= i < |keys| && keys[i] == ObjectKey(remembered);
      assert ChildKeys(Obj(after, ROOT_ID))[i] == ObjectKey(remembered);
    }
  }

  // What a scan without failed writes leaves, besides a consistent store.
  ghost predicate Succeeded(disk: Disk, remembered: int, written: seq<Batch>, r: ScanResult) {
    var no, nr := NextId(disk.store, ObjectKind), NextId(disk.store, ResourceKind);
    && r.disk.raised.None? && NoFailures(r.disk.outcomes)
    && Grown(disk.store, r.disk.store)
    && Holds(Items(written), Resources(written), disk.store, r.disk.store, no, nr)
    && r.moviesFolder > 0 && Remembers(r.disk.store, r.moviesFolder)
  }

  // No scan raises, and all that a scan writes is stored.
  lemma ScanSucceeds(disk: Disk, remembered: int, path: string, entries: seq<FsEntry>, config: LibraryConfig)
    requires disk.raised.None? && Consistent(disk.store)
    requires NoFailures(disk.outcomes) && Remembers(disk.store, remembered)
    ensures Succeeded(disk, remembered, Written(disk, remembered, path, entries, config),
                      Scan(disk, remembered, path, entries, config))
  {
    hide Consistent, NoFailures, Grown, Holds, Above, RunOk, MoviesFolderOf, ScanBatches, Execute, CreatesMovies,
      Items, Resources, Remembers, Containers, AllStored;
    var no, nr := NextId(disk.store, ObjectKind), NextId(disk.store, ResourceKind);
    var search := MoviesFolderOf(disk, remembered, no);
    var first := FirstBatches(disk, remembered);
    SearchKeepsConsistent(disk, remembered);
    SearchSucceeds(disk, remembered);
    ScanBatchesOk(path, entries, config, search.moviesFolder, search.nextObject, nr);
    var batches := ScanBatches(path, entries, config, search.moviesFolder, search.nextObject, nr).batches;
    MoviesIsStored(search.disk.store, search.moviesFolder);
    RunSucceeds(batches, {search.moviesFolder}, search.disk, search.nextObject, nr);
    var after := Execute(batches, search.disk).store;
    FirstBatchesAre(disk, remembered);
    HoldsAppend(Items(first), Resources(first), Items(batches), Resources(batches),
                disk.store, search.disk.store, after, no, nr);
    ItemsAppend(first, batches);
    GrownTransitive(disk.store, search.disk.store, after);
    RemembersLater(search.disk.store, after, search.moviesFolder);
    assert Written(disk, remembered, path, entries, config) == first + batches;
  }

  lemma MoviesIsStored(store: Store, id: int)
    requires id > 0 && Remembers(store, id)
    ensures AllStored({id}, store)
  {
  }

  // ----- Ids -----

  // The next ids after a scan: no id it gave out is given out again.
  lemma NextIdsAfter(disk: Disk, remembered: int, written: seq<Batch>, r: ScanResult)
    requires Consistent(disk.store) && Succeeded(disk, remembered, written, r)
    ensures NextId(r.disk.store, ObjectKind) == NextId(disk.store, ObjectKind) + |Items(written)|
    ensures NextId(r.disk.store, ResourceKind) == NextId(disk.store, ResourceKind) + |Resources(written)|
  {
    ConsistentParts(disk.store);
    hide Consistent, Typed, Remembers, Items, Resources;
    NextObjectAfter(disk.store, r.disk.store, Items(written), Resources(written));
    NextResourceAfter(disk.store, r.disk.store, Items(written), Resources(written));
  }

  lemma NextObjectAfter(before: Store, after: Store, items: seq<MediaObject>, resources: seq<StoredResource>)
    requires Typed(before) && Rooted(before) && Grown(before, after)
    requires Holds(items, resources, before, after, NextId(before, ObjectKind), NextId(before, ResourceKind))
    ensures NextId(after, ObjectKind) == NextId(before, ObjectKind) + |items|
  {
    var no := NextId(before, ObjectKind);
    var next := no + |items|;
    forall k | k in after && HasKind(k, ObjectKind) ensures k.id < next {
      assert k == ObjectKey(k.id);
      if k in before {
        assert HasKind(k, ObjectKind);
      }
    }
    assert HasKind(ObjectKey(ROOT_ID), ObjectKind) && HasObject(before, ROOT_ID);
    assert ObjectKey(ROOT_ID) in after;
    if |items| > 0 {
      assert HasObject(after, next - 1);
    } else {
      assert KeyOf(ObjectKind, no - 1) in before;
      assert ObjectKey(no - 1) in after by { StoredObjectStays(before, after, no - 1); }
    }
    NextIdUnique(after, ObjectKind, next, NextId(after, ObjectKind));
  }

  lemma StoredObjectStays(before: Store, after: Store, id: int)
    requires ObjectKey(id) in before && Grown(before, after)
    requires HasObject(before, id)
    ensures ObjectKey(id) in after
  {
  }

  lemma NextResourceAfter(before: Store, after: Store, items: seq<MediaObject>, resources: seq<StoredResource>)
    requires Grown(before, after)
    requires Holds(items, resources, before, after, NextId(before, ObjectKind), NextId(before, ResourceKind))
    ensures NextId(after, ResourceKind) == NextId(before, ResourceKind) + |resources|
  {
    var nr := NextId(before, ResourceKind);
    var next := nr + |resources|;
    forall k | k in after && HasKind(k, ResourceKind) ensures k.id < next {
      assert k == ResourceKey(k.id);
      if k in before {
        assert HasKind(k, ResourceKind);
      }
    }
    if |resources| > 0 {
      assert ResourceKey(next - 1) in after && HasKind(ResourceKey(next - 1), ResourceKind);
    } else {
      forall k | k in after && HasKind(k, ResourceKind) ensures k in before {
        assert k == ResourceKey(k.id);
      }
      if k :| k in before && HasKind(k, ResourceKind) {
        assert k == ResourceKey(k.id);
        assert ResourceKey(nr - 1) in after && HasKind(ResourceKey(nr - 1), ResourceKind);
      }
    }
    NextIdUnique(after, ResourceKind, next, NextId(after, ResourceKind));
  }

  lemma {:induction false} RunIds(batches: seq<Batch>, known: set<int>, nextObject: int, nextResource: int)
    requires RunOk(batches, known, nextObject, nextResource)
    ensures forall i :: 0 <= i < |Items(batches)| ==> Items(batches)[i].id == nextObject + i
    ensures forall i :: 0 <= i < |Resources(batches)| ==> Resources(batches)[i].key == nextResource + i
    decreases |batches|
  {
    hide Partition, Containers, ParentsMatch, NewObject;
    if batches != [] {
      RunIds(batches[1..], known + Containers(batches[0].items),
             nextObject + |batches[0].items|, nextResource + |batches[0].resources|);
    }
  }

  // The objects and resources a scan writes are numbered consecutively, from
  // one above the largest stored id on.
  lemma WrittenIds(disk: Disk, remembered: int, path: string, entries: seq<FsEntry>, config: LibraryConfig)
    requires disk.raised.None? && Consistent(disk.store)
    ensures var written := Written(disk, remembered, path, entries, config);
            && (forall i :: 0 <= i < |Items(written)| ==>
                  Items(written)[i].id == NextId(disk.store, ObjectKind) + i)
            && (forall i :: 0 <= i < |Resources(written)| ==>
                  Resources(written)[i].key == NextId(disk.store, ResourceKind) + i)
  {
    hide Consistent, Above, RunOk, MoviesFolderOf, ScanBatches, CreatesMovies, Items, Resources;
    var no, nr := NextId(disk.store, ObjectKind), NextId(disk.store, ResourceKind);
    var search := MoviesFolderOf(disk, remembered, no);
    SearchKeepsConsistent(disk, remembered);
    ScanBatchesOk(path, entries, config, search.moviesFolder, search.nextObject, nr);
    var batches := ScanBatches(path, entries, config, search.moviesFolder, search.nextObject, nr).batches;
    RunIds(batches, {search.moviesFolder}, search.nextObject, nr);
    var first := FirstBatches(disk, remembered);
    FirstBatchesAre(disk, remembered);
    ItemsAppend(first, batches);
    assert Written(disk, remembered, path, entries, config) == first + batches;
  }

  // ----- The objects of a scan -----

  // The movies folder, if a scan makes one.
  ghost function FirstPlaced(disk: Disk, remembered: int): seq<Placed> {
    if CreatesMovies(disk, remembered) then
      [Placed(NextId(disk.store, ObjectKind), ROOT_ID, FolderView("object.container", "Movies", []))]
    else []
  }

  // With no failed write, the new objects are the movies folder, if there was
  // none, and under it what is expected of the tree, numbered in preorder.
  lemma ScanStoresForest(disk: Disk, remembered: int, path: string, entries: seq<FsEntry>, config: LibraryConfig)
    requires disk.raised.None? && Consistent(disk.store)
    requires NoFailures(disk.outcomes) && Remembers(disk.store, remembered)
    ensures var r := Scan(disk, remembered, path, entries, config);
            var no := NextId(disk.store, ObjectKind);
            var first := FirstPlaced(disk, remembered);
            && NextId(r.disk.store, ObjectKind) == no + |first| + Count(ForestOf(path, entries, config))
            && StoredObjects(r.disk.store, no, |first| + Count(ForestOf(path, entries, config)))
               == first + Preorder(ForestOf(path, entries, config), r.moviesFolder, no + |first|)
  {
    hide *;
    var no, nr := NextId(disk.store, ObjectKind), NextId(disk.store, ResourceKind);
    var r := Scan(disk, remembered, path, entries, config);
    var written := Written(disk, remembered, path, entries, config);
    ScanSucceeds(disk, remembered, path, entries, config);
    NextIdsAfter(disk, remembered, written, r);
    SucceededStored(disk, remembered, written, r);
    WrittenObjects(disk, remembered, path, entries, config, r.disk.store);
    MoviesFolderIs(disk, remembered, path, entries, config);
  }

  lemma SucceededStored(disk: Disk, remembered: int, written: seq<Batch>, r: ScanResult)
    requires Succeeded(disk, remembered, written, r)
    ensures Stored(Items(written), Resources(written), r.disk.store,
                   NextId(disk.store, ObjectKind), NextId(disk.store, ResourceKind))
  {
    hide Items, Resources, NextId, SameButChildren;
  }

  lemma MoviesFolderIs(disk: Disk, remembered: int, path: string, entries: seq<FsEntry>, config: LibraryConfig)
    ensures Scan(disk, remembered, path, entries, config).moviesFolder
            == MoviesFolderOf(disk, remembered, NextId(disk.store, ObjectKind)).moviesFolder
  {
    hide MoviesFolderOf, ScanBatches, Execute, NextId;
  }

  lemma WrittenObjects(disk: Disk, remembered: int, path: string, entries: seq<FsEntry>, config: LibraryConfig,
                       after: Store)
    requires disk.raised.None? && Consistent(disk.store)
    requires var written := Written(disk, remembered, path, entries, config);
             Stored(Items(written), Resources(written), after,
                    NextId(disk.store, ObjectKind), NextId(disk.store, ResourceKind))
    ensures
      var written := Written(disk, remembered, path, entries, config);
      var no, first := NextId(disk.store, ObjectKind), FirstPlaced(disk, remembered);
      var forest := ForestOf(path, entries, config);
      && |Items(written)| == |first| + Count(forest)
      && StoredObjects(after, no, |Items(written)|)
         == first + Preorder(forest, MoviesFolderOf(disk, remembered, no).moviesFolder, no + |first|)
  {
    hide Consistent, Above, RunOk, MoviesFolderOf, ScanBatches, CreatesMovies, Items, Resources, StoredObjects,
      PlanViews, Stored, ForestOf, Preorder, Count, NextId;
    var no, nr := NextId(disk.store, ObjectKind), NextId(disk.store, ResourceKind);
    var search := MoviesFolderOf(disk, remembered, no);
    var first := FirstBatches(disk, remembered);
    var batches := ScanBatches(path, entries, config, search.moviesFolder, search.nextObject, nr).batches;
    SearchKeepsConsistent(disk, remembered);
    ScanBatchesOk(path, entries, config, search.moviesFolder, search.nextObject, nr);
    FirstBatchesAre(disk, remembered);
    ItemsAppend(first, batches);
    assert Written(disk, remembered, path, entries, config) == first + batches;
    StoredSplit(Items(first), Resources(first), Items(batches), Resources(batches), after, no, nr);
    FirstIsMovies(Items(first), after, no, nr);
    RunStored(batches, {search.moviesFolder}, after, search.nextObject, nr);
    StoredObjectsSplit(after, no, |Items(first)|, |Items(batches)|);
    ScanBatchesViews(path, entries, config, search.moviesFolder, search.nextObject, nr);
  }

  lemma FirstIsMovies(items: seq<MediaObject>, after: Store, nextObject: int, nextResource: int)
    requires Stored(items, [], after, nextObject, nextResource)
    requires items == [] || items == [MoviesFolder(nextObject, ROOT_ID)]
    ensures StoredObjects(after, nextObject, |items|)
            == if items == [] then []
               else [Placed(nextObject, ROOT_ID, FolderView("object.container", "Movies", []))]
  {
    NoStoredObjects(after, nextObject);
    if items != [] {
      assert HasObject(after, nextObject);
      SameView(after, items[0], Obj(after, nextObject));
      assert StoredArtLinks(after, []) == [];
    }
  }

  lemma ScanBatchesViews(path: string, entries: seq<FsEntry>, config: LibraryConfig,
                         parent: int, nextObject: int, nextResource: int)
    ensures var batches := ScanBatches(path, entries, config, parent, nextObject, nextResource).batches;
            && |Items(batches)| == Count(ForestOf(path, entries, config))
            && PlanViews(batches, nextResource) == Preorder(ForestOf(path, entries, config), parent, nextObject)
  {
    hide PlanViews, WalkTree, Planner, Forest, Preorder, Count, Items;
    var done := Progress([], nextObject, nextResource);
    NoViews(nextResource);
    WalkTreeViews(config, path, entries, false, parent, done, nextResource);
    PlanViewsCount(ScanBatches(path, entries, config, parent, nextObject, nextResource).batches, nextResource);
  }

  lemma NoViews(first: int)
    ensures PlanViews([], first) == []
    ensures forall n :: Numbers(Progress([], n, first), first)
  {
  }

  // Among the new objects is one item for each video of the tree, in scan
  // order, whose first file is the video.
  lemma ScanStoresVideos(disk: Disk, remembered: int, path: string, entries: seq<FsEntry>, config: LibraryConfig)
    requires disk.raised.None? && Consistent(disk.store)
    requires NoFailures(disk.outcomes) && Remembers(disk.store, remembered)
    ensures var after := Scan(disk, remembered, path, entries, config).disk.store;
            var no := NextId(disk.store, ObjectKind);
            && no <= NextId(after, ObjectKind)
            && VideosAmong(StoredObjects(after, no, NextId(after, ObjectKind) - no))
               == Somes(ScannedVideos(path, entries))
    ensures DistinctNames(entries) ==>
              multiset(ScannedVideos(path, entries)) == multiset(AllVideos(path, entries))
  {
    hide *;
    ScanStoresForest(disk, remembered, path, entries, config);
    var r, no := Scan(disk, remembered, path, entries, config), NextId(disk.store, ObjectKind);
    var first, forest := FirstPlaced(disk, remembered), ForestOf(path, entries, config);
    VideosAmongAppend(first, Preorder(forest, r.moviesFolder, no + |first|));
    NoVideoFirst(disk, remembered);
    VideosOfPreorder(forest, r.moviesFolder, no + |first|);
    ForestOfVideos(path, entries, config);
    if DistinctNames(entries) {
      ScansAllVideos(path, entries);
    }
  }

  lemma NoVideoFirst(disk: Disk, remembered: int)
    ensures VideosAmong(FirstPlaced(disk, remembered)) == []
  {
    hide CreatesMovies, NextId;
    var folder := Placed(NextId(disk.store, ObjectKind), ROOT_ID, FolderView("object.container", "Movies", []));
    assert [folder][1..] == [];
  }

  lemma ForestOfVideos(path: string, entries: seq<FsEntry>, config: LibraryConfig)
    ensures VideosIn(ForestOf(path, entries, config)) == Somes(ScannedVideos(path, entries))
  {
    hide Forest, VideosIn, Somes, ScannedVideos;
    ForestVideos(path, entries, config, false);
  }

  // ----- References -----

  // Some object from an id on refers to the resource.
  ghost predicate ReferredToFrom(store: Store, r: int, no: int) {
    exists id :: id >= no && HasObject(store, id) && ResourceKey(r) in Refs(Obj(store, id))
  }

  // References of objects that were there before are as they were.
  lemma OldRefsKept(before: Store, after: Store, id: int)
    requires Grown(before, after) && HasObject(before, id)
    ensures HasObject(after, id) && Refs(Obj(after, id)) == Refs(Obj(before, id))
  {
  }

  // With no failed write, the new resources are one block of ids, and exactly
  // what the new objects refer to: every one of them once, and nothing else.
  lemma NewResourcesReferencedOnce(disk: Disk, remembered: int, path: string, entries: seq<FsEntry>,
                                   config: LibraryConfig)
    requires disk.raised.None? && Consistent(disk.store)
    requires NoFailures(disk.outcomes) && Remembers(disk.store, remembered)
    ensures
      var after := Scan(disk, remembered, path, entries, config).disk.store;
      var no, nr := NextId(disk.store, ObjectKind), NextId(disk.store, ResourceKind);
      && (forall r :: ResourceKey(r) in after && ResourceKey(r) !in disk.store <==> nr <= r < NextId(after, ResourceKind))
      && (forall r :: nr <= r < NextId(after, ResourceKind) ==>
            ReferredToFrom(after, r, no))
      && (forall id, i :: id >= no && HasObject(after, id) && 0 <= i < |Refs(Obj(after, id))| ==>
            Refs(Obj(after, id))[i].ResourceKey? && nr <= Refs(Obj(after, id))[i].id < NextId(after, ResourceKind))
      && RefsUnique(after)
  {
    var r := Scan(disk, remembered, path, entries, config);
    var written := Written(disk, remembered, path, entries, config);
    ScanSucceeds(disk, remembered, path, entries, config);
    ScanKeepsConsistent(disk, remembered, path, entries, config);
    NextIdsAfter(disk, remembered, written, r);
    ConsistentParts(disk.store);
    CountersAbove(disk.store);
    hide Scan, Written, MoviesFolderOf, ScanBatches, NextId, Execute, NoFailures, Remembers, ParentsList, ChildrenExist,
      ChildrenAscending, MoviesOnly, ContainersUndated, Typed, Items, Resources;
    BlockIsNew(disk.store, r.disk.store, Items(written), Resources(written),
               NextId(disk.store, ObjectKind), NextId(disk.store, ResourceKind));
  }

  lemma BlockIsNew(before: Store, after: Store, items: seq<MediaObject>, resources: seq<StoredResource>,
                   no: int, nr: int)
    requires RefsResolve(before) && ResourcesUsed(before) && Above(before, no, nr) && Typed(before)
    requires RefsResolve(after) && ResourcesUsed(after) && RefsUnique(after)
    requires Grown(before, after) && Holds(items, resources, before, after, no, nr)
    ensures forall r :: ResourceKey(r) in after && ResourceKey(r) !in before <==> nr <= r < nr + |resources|
    ensures forall r :: nr <= r < nr + |resources| ==>
              ReferredToFrom(after, r, no)
    ensures forall id, i :: id >= no && HasObject(after, id) && 0 <= i < |Refs(Obj(after, id))| ==>
              Refs(Obj(after, id))[i].ResourceKey? && nr <= Refs(Obj(after, id))[i].id < nr + |resources|
  {
    hide Refs, SameButChildren;
    forall r | ResourceKey(r) in after && ResourceKey(r) !in before ensures nr <= r < nr + |resources| {}
    forall r | nr <= r < nr + |resources|
      ensures ResourceKey(r) in after && ResourceKey(r) !in before
      ensures ReferredToFrom(after, r, no)
    {
      assert ResourceKey(r) in after;
      var id :| HasObject(after, id) && ResourceKey(r) in Refs(Obj(after, id));
      if id < no {
        OldRefIsOld(before, after, items, resources, no, nr, id, r);
      }
    }
    forall id, i | id >= no && HasObject(after, id) && 0 <= i < |Refs(Obj(after, id))|
      ensures Refs(Obj(after, id))[i].ResourceKey? && nr <= Refs(Obj(after, id))[i].id < nr + |resources|
    {
      NewRefIsNew(before, after, items, resources, no, nr, id, i);
    }
  }

  lemma OldRefIsOld(before: Store, after: Store, items: seq<MediaObject>, resources: seq<StoredResource>,
                    no: int, nr: int, id: int, r: int)
    requires RefsResolve(before) && Above(before, no, nr)
    requires Grown(before, after) && Holds(items, resources, before, after, no, nr)
    requires HasObject(after, id) && id < no && ResourceKey(r) in Refs(Obj(after, id)) && Typed(before)
    ensures r < nr
  {
    hide Refs, SameButChildren;
    assert HasObject(before, id);
    OldRefsKept(before, after, id);
    var refs := Refs(Obj(before, id));
    var i :| 0 <= i < |refs| && refs[i] == ResourceKey(r);
    assert ResourceKey(r) in before;
  }

  // A resource that was there before is still referred to by an old object.
  lemma OldHolder(before: Store, after: Store, no: int, nr: int, r: int) returns (id: int, i: int)
    requires ResourcesUsed(before) && Above(before, no, nr) && Grown(before, after) && ResourceKey(r) in before
    ensures id < no && HasObject(after, id) && 0 <= i < |Refs(Obj(after, id))|
    ensures Refs(Obj(after, id))[i] == ResourceKey(r)
  {
    hide Refs, SameButChildren;
    id :| HasObject(before, id) && ResourceKey(r) in Refs(Obj(before, id));
    OldRefsKept(before, after, id);
    i :| 0 <= i < |Refs(Obj(after, id))| && Refs(Obj(after, id))[i] == ResourceKey(r);
  }

  lemma NewRefIsNew(before: Store, after: Store, items: seq<MediaObject>, resources: seq<StoredResource>,
                    no: int, nr: int, id: int, i: int)
    requires ResourcesUsed(before) && Above(before, no, nr)
    requires RefsResolve(after) && RefsUnique(after)
    requires Grown(before, after) && Holds(items, resources, before, after, no, nr)
    requires id >= no && HasObject(after, id) && 0 <= i < |Refs(Obj(after, id))|
    ensures Refs(Obj(after, id))[i].ResourceKey? && nr <= Refs(Obj(after, id))[i].id < nr + |resources|
  {
    hide Refs, SameButChildren;
    var key := Refs(Obj(after, id))[i];
    assert key == ResourceKey(key.id);
    if key in before {
      var other, j := OldHolder(before, after, no, nr, key.id);
      assert false;
    }
  }

  // ----- Sessions -----

  // One scan_all call, by one of several scanners.
  datatype Call = Call(scanner: nat, path: string, entries: seq<FsEntry>, config: LibraryConfig)

  // The database, what each scanner remembers, and the ids given out so far.
  datatype Session = Session(disk: Disk, memory: map<nat, int>, objects: seq<int>, resources: seq<int>)

  function MemoryOf(session: Session, scanner: nat): int {
    if scanner in session.memory then session.memory[scanner] else -1
  }

  function ItemIds(items: seq<MediaObject>): (ids: seq<int>)
    ensures |ids| == |items| && forall i :: 0 <= i < |items| ==> ids[i] == items[i].id
  {
    seq(|items|, i requires 0 <= i < |items| => items[i].id)
  }

  function ResourceIds(resources: seq<StoredResource>): (ids: seq<int>)
    ensures |ids| == |resources| && forall i :: 0 <= i < |resources| ==> ids[i] == resources[i].key
  {
    seq(|resources|, i requires 0 <= i < |resources| => resources[i].key)
  }

  // A call whose exception is caught by whoever runs the session.
  ghost function RunCall(call: Call, s: Session): Session {
    var remembered := MemoryOf(s, call.scanner);
    var r := Scan(s.disk, remembered, call.path, call.entries, call.config);
    var written := Written(s.disk, remembered, call.path, call.entries, call.config);
    Session(r.disk.(raised := None), s.memory[call.scanner := r.moviesFolder],
            s.objects + ItemIds(Items(written)), s.resources + ResourceIds(Resources(written)))
  }

  ghost function RunCalls(calls: seq<Call>, s: Session): Session
    decreases |calls|
  {
    if calls == [] then s else RunCalls(calls[1..], RunCall(calls[0], s))
  }

  lemma NoCalls(s: Session)
    ensures RunCalls([], s) == s
  {
  }

  lemma {:induction false} RunCallsNext(calls: seq<Call>, call: Call, s: Session)
    ensures RunCalls(calls + [call], s) == RunCall(call, RunCalls(calls, s))
    decreases |calls|
  {
    hide RunCall;
    if calls == [] {
      assert [call][1..] == [];
      assert calls + [call] == [call];
    } else {
      assert (calls + [call])[0] == calls[0] && (calls + [call])[1..] == calls[1..] + [call];
      RunCallsNext(calls[1..], call, RunCall(calls[0], s));
    }
  }

  // From a consistent database, every sequence of scans keeps it consistent,
  // with any pattern of failed writes.
  lemma {:induction false} SessionKeepsConsistent(calls: seq<Call>, s: Session)
    requires s.disk.raised.None? && Consistent(s.disk.store)
    ensures Consistent(RunCalls(calls, s).disk.store)
    decreases |calls|
  {
    hide Consistent, Scan, Written;
    if calls != [] {
      ScanKeepsConsistent(s.disk, MemoryOf(s, calls[0].scanner), calls[0].path, calls[0].entries, calls[0].config);
      SessionKeepsConsistent(calls[1..], RunCall(calls[0], s));
    }
  }

  ghost predicate Increasing(ids: seq<int>) {
    forall i, j :: 0 <= i < j < |ids| ==> ids[i] < ids[j]
  }

  ghost predicate AllBelow(ids: seq<int>, bound: int) {
    forall i :: 0 <= i < |ids| ==> ids[i] < bound
  }

  // A session that no write has failed in.
  ghost predicate SessionOk(s: Session) {
    && s.disk.raised.None? && NoFailures(s.disk.outcomes) && Consistent(s.disk.store)
    && (forall scanner :: scanner in s.memory ==> Remembers(s.disk.store, s.memory[scanner]))
    && Increasing(s.objects) && AllBelow(s.objects, NextId(s.disk.store, ObjectKind))
    && Increasing(s.resources) && AllBelow(s.resources, NextId(s.disk.store, ResourceKind))
  }

  lemma IdsStayIncreasing(ids: seq<int>, more: seq<int>, next: int)
    requires Increasing(ids) && AllBelow(ids, next)
    requires forall i :: 0 <= i < |more| ==> more[i] == next + i
    ensures Increasing(ids + more) && AllBelow(ids + more, next + |more|)
  {
  }

  // The folder is the root's only child, and called "Movies".
  ghost predicate OnlyMoviesFolder(store: Store, id: int) {
    && HasObject(store, ROOT_ID) && ChildKeys(Obj(store, ROOT_ID)) == [ObjectKey(id)]
    && HasObject(store, id) && Obj(store, id).dcTitle == "Movies"
  }

  // No call raises, and every call puts its items below the root's only child.
  lemma CallUsesMovies(call: Call, s: Session)
    requires SessionOk(s)
    ensures var r := Scan(s.disk, MemoryOf(s, call.scanner), call.path, call.entries, call.config);
            var written := Written(s.disk, MemoryOf(s, call.scanner), call.path, call.entries, call.config);
            && Succeeded(s.disk, MemoryOf(s, call.scanner), written, r)
            && Consistent(r.disk.store) && OnlyMoviesFolder(r.disk.store, r.moviesFolder)
  {
    hide Consistent, NoFailures, Scan, Written, Increasing, AllBelow, Remembers, Items, Resources, Grown, Holds,
      OnlyMoviesFolder;
    var remembered := MemoryOf(s, call.scanner);
    var r := Scan(s.disk, remembered, call.path, call.entries, call.config);
    assert Remembers(s.disk.store, remembered) by { NothingRemembered(s.disk.store); }
    ScanSucceeds(s.disk, remembered, call.path, call.entries, call.config);
    ScanKeepsConsistent(s.disk, remembered, call.path, call.entries, call.config);
    OneMoviesFolder(r.disk.store, r.moviesFolder);
  }

  // A call without failed writes leaves such a session, with more ids.
  lemma CallSucceeds(call: Call, s: Session)
    requires SessionOk(s)
    ensures SessionOk(RunCall(call, s))
  {
    hide SessionOk, Succeeded, Consistent, Scan, Written, Items, Resources, NextId, OnlyMoviesFolder;
    var remembered := MemoryOf(s, call.scanner);
    CallUsesMovies(call, s);
    SessionParts(s);
    WrittenIds(s.disk, remembered, call.path, call.entries, call.config);
    SessionStep(s, call.scanner, remembered, Written(s.disk, remembered, call.path, call.entries, call.config),
                Scan(s.disk, remembered, call.path, call.entries, call.config));
  }

  lemma SessionParts(s: Session)
    requires SessionOk(s)
    ensures s.disk.raised.None? && Consistent(s.disk.store)
  {
  }

  lemma SessionStep(s: Session, scanner: nat, remembered: int, written: seq<Batch>, r: ScanResult)
    requires SessionOk(s) && Succeeded(s.disk, remembered, written, r) && Consistent(r.disk.store)
    requires forall i :: 0 <= i < |Items(written)| ==> Items(written)[i].id == NextId(s.disk.store, ObjectKind) + i
    requires forall i :: 0 <= i < |Resources(written)| ==>
               Resources(written)[i].key == NextId(s.disk.store, ResourceKind) + i
    ensures SessionOk(Session(r.disk.(raised := None), s.memory[scanner := r.moviesFolder],
                              s.objects + ItemIds(Items(written)), s.resources + ResourceIds(Resources(written))))
  {
    hide Consistent, NoFailures, Increasing, AllBelow, Remembers, Items, Resources, Grown, Holds, NextId;
    NextIdsAfter(s.disk, remembered, written, r);
    IdsStayIncreasing(s.objects, ItemIds(Items(written)), NextId(s.disk.store, ObjectKind));
    IdsStayIncreasing(s.resources, ResourceIds(Resources(written)), NextId(s.disk.store, ResourceKind));
    forall scanner | scanner in s.memory ensures Remembers(r.disk.store, s.memory[scanner]) {
      RemembersLater(s.disk.store, r.disk.store, s.memory[scanner]);
    }
  }

  lemma NothingRemembered(store: Store)
    ensures Remembers(store, -1)
  {
  }

  lemma OneMoviesFolder(store: Store, id: int)
    requires Consistent(store) && id > 0 && Remembers(store, id)
    ensures OnlyMoviesFolder(store, id)
  {
    hide ParentsList, ChildrenExist, ChildrenAscending, RefsResolve, RefsUnique, ResourcesUsed, ContainersUndated;
  }

  // Over any sequence of scans without failed writes, by any scanners: no scan
  // raises, and no object or resource id is given out twice.
  lemma {:induction false} SessionSucceeds(calls: seq<Call>, s: Session)
    requires SessionOk(s)
    ensures SessionOk(RunCalls(calls, s))
    decreases |calls|
  {
    hide SessionOk, RunCall;
    if calls != [] {
      CallSucceeds(calls[0], s);
      SessionSucceeds(calls[1..], RunCall(calls[0], s));
    }
  }

  // A new database starts such a session.
  lemma FreshSession(outcomes: seq<bool>)
    requires NoFailures(outcomes)
    ensures SessionOk(Session(Disk(FreshStore(), outcomes, None), map[], [], []))
  {
    hide Consistent;
    FreshStoreConsistent();
  }

  // ----- The whole library -----

  // All objects of a store, by id.
  ghost function LibraryObjects(store: Store): seq<Placed> {
    var n := NextId(store, ObjectKind);
    if n > 0 then StoredObjects(store, 0, n) else []
  }

  // What all scans of a session put under the movies folder.
  function ForestOfCalls(calls: seq<Call>): seq<Node> {
    if calls == [] then [] else ForestOf(calls[0].path, calls[0].entries, calls[0].config) + ForestOfCalls(calls[1..])
  }

  // The library that a session makes of a new database: the root, the movies
  // folder and the forests of all scans, numbered in preorder.
  function LibraryOf(calls: seq<Call>): seq<Placed> {
    [Placed(0, -1, FolderView("object.container", "", []))] +
    if calls == [] then []
    else [Placed(1, 0, FolderView("object.container", "Movies", []))] + Preorder(ForestOfCalls(calls), 1, 2)
  }

  lemma NoneBelow(before: Store, after: Store, items: seq<MediaObject>, resources: seq<StoredResource>, no: int,
                  nr: int)
    requires Typed(before) && Holds(items, resources, before, after, no, nr)
    ensures forall id :: id < no && HasObject(after, id) ==> HasObject(before, id)
  {
  }

  lemma ConsistentRefs(store: Store)
    requires Consistent(store)
    ensures RefsResolve(store)
  {
  }

  // A scan adds its objects to those of the library, and changes none of these.
  lemma CallAddsObjects(call: Call, s: Session)
    requires SessionOk(s)
    ensures var remembered := MemoryOf(s, call.scanner);
            var no, first := NextId(s.disk.store, ObjectKind), FirstPlaced(s.disk, remembered);
            var forest := ForestOf(call.path, call.entries, call.config);
            var r := Scan(s.disk, remembered, call.path, call.entries, call.config);
            && NextId(r.disk.store, ObjectKind) == no + |first| + Count(forest)
            && LibraryObjects(r.disk.store)
               == LibraryObjects(s.disk.store) + (first + Preorder(forest, r.moviesFolder, no + |first|))
  {
    hide Consistent, NoFailures, Grown, Holds, Scan, Written, Items, Resources, StoredObjects, ForestOf, Remembers,
      Increasing, AllBelow, Typed, RefsResolve, Preorder, Count, FirstPlaced, NextId;
    var before, remembered := s.disk.store, MemoryOf(s, call.scanner);
    var r := Scan(s.disk, remembered, call.path, call.entries, call.config);
    var written := Written(s.disk, remembered, call.path, call.entries, call.config);
    NothingRemembered(before);
    ScanSucceeds(s.disk, remembered, call.path, call.entries, call.config);
    ScanStoresForest(s.disk, remembered, call.path, call.entries, call.config);
    ConsistentParts(before);
    CountersAbove(before);
    ConsistentRefs(before);
    var no, after := NextId(before, ObjectKind), r.disk.store;
    NoneBelow(before, after, Items(written), Resources(written), no, NextId(before, ResourceKind));
    OldObjectsKept(before, after, no);
    StoredObjectsSplit(after, 0, no, NextId(after, ObjectKind) - no);
  }

  // Once there is a movies folder, every call uses that one.
  lemma CallKeepsMovies(call: Call, s: Session, m: int)
    requires SessionOk(s) && OnlyMoviesFolder(s.disk.store, m)
    ensures var remembered := MemoryOf(s, call.scanner);
            && FirstPlaced(s.disk, remembered) == []
            && Scan(s.disk, remembered, call.path, call.entries, call.config).moviesFolder == m
            && OnlyMoviesFolder(RunCall(call, s).disk.store, m)
  {
    hide Consistent, NoFailures, Scan, Written, Increasing, AllBelow, Remembers, Items, Resources, Holds, FindMovies,
      NextId;
    CallUsesMovies(call, s);
    FindMoviesFinds(s.disk.store);
    var r := Scan(s.disk, MemoryOf(s, call.scanner), call.path, call.entries, call.config);
    SameOnlyChild(s.disk.store, r.disk.store, m, r.moviesFolder);
  }

  lemma SameOnlyChild(before: Store, after: Store, m: int, other: int)
    requires Grown(before, after) && OnlyMoviesFolder(before, m) && OnlyMoviesFolder(after, other)
    ensures m == other
  {
    assert HasObject(before, ROOT_ID);
    assert SameButChildren(Obj(before, ROOT_ID), Obj(after, ROOT_ID));
    assert ChildKeys(Obj(after, ROOT_ID))[0] == ChildKeys(Obj(before, ROOT_ID))[0];
  }

  // Later scans put all they find under it, after what was there.
  lemma {:induction false} SessionAddsForests(calls: seq<Call>, s: Session, m: int)
    requires SessionOk(s) && OnlyMoviesFolder(s.disk.store, m)
    ensures LibraryObjects(RunCalls(calls, s).disk.store)
            == LibraryObjects(s.disk.store) + Preorder(ForestOfCalls(calls), m, NextId(s.disk.store, ObjectKind))
    decreases |calls|
  {
    hide SessionOk, RunCall, LibraryObjects, ForestOf, OnlyMoviesFolder, Preorder, Count, NextId, FirstPlaced, Scan;
    if calls == [] {
      PreorderNone(m, NextId(s.disk.store, ObjectKind));
    } else {
      var call, next := calls[0], RunCall(calls[0], s);
      var forest := ForestOf(call.path, call.entries, call.config);
      CallSucceeds(call, s);
      CallKeepsMovies(call, s, m);
      CallAddsObjects(call, s);
      RunCallStore(call, s);
      SessionAddsForests(calls[1..], next, m);
      PreorderAppend(forest, ForestOfCalls(calls[1..]), m, NextId(s.disk.store, ObjectKind));
    }
  }

  lemma RunCallStore(call: Call, s: Session)
    ensures RunCall(call, s).disk.store
            == Scan(s.disk, MemoryOf(s, call.scanner), call.path, call.entries, call.config).disk.store
  {
    hide Scan, Written;
  }

  // The library that scans without failed writes make of a new database is
  // exactly what is expected of the trees, object by object.
  lemma NewLibraryIs(calls: seq<Call>, outcomes: seq<bool>)
    requires NoFailures(outcomes)
    ensures var s := Session(Disk(FreshStore(), outcomes, None), map[], [], []);
            LibraryObjects(RunCalls(calls, s).disk.store) == LibraryOf(calls)
  {
    hide *;
    var s := Session(Disk(FreshStore(), outcomes, None), map[], [], []);
    FreshSession(outcomes);
    FreshObjects();
    if calls == [] {
      NoCalls(s);
      NoLibrary();
    } else {
      var call, next := calls[0], RunCall(calls[0], s);
      var forest := ForestOf(call.path, call.entries, call.config);
      CallSucceeds(call, s);
      CallUsesMovies(call, s);
      CallAddsObjects(call, s);
      RunCallStore(call, s);
      FreshMakesMovies(call, s);
      SessionAddsForests(calls[1..], next, 1);
      PreorderAppend(forest, ForestOfCalls(calls[1..]), 1, 2);
      FirstCall(calls, s);
    }
  }

  lemma NoLibrary()
    ensures LibraryOf([]) == [Placed(0, -1, FolderView("object.container", "", []))]
  {
  }

  lemma FirstCall(calls: seq<Call>, s: Session)
    requires calls != []
    ensures RunCalls(calls, s) == RunCalls(calls[1..], RunCall(calls[0], s))
    ensures
      var forest := ForestOf(calls[0].path, calls[0].entries, calls[0].config) + ForestOfCalls(calls[1..]);
      LibraryOf(calls) == [Placed(0, -1, FolderView("object.container", "", []))]
        + ([Placed(1, 0, FolderView("object.container", "Movies", []))] + Preorder(forest, 1, 2))
  {
    hide RunCall, ForestOf, Preorder;
  }

  // A new store holds the root and nothing else.
  lemma FreshObjects()
    ensures NextId(FreshStore(), ObjectKind) == 1
    ensures LibraryObjects(FreshStore()) == [Placed(0, -1, FolderView("object.container", "", []))]
  {
    var store := FreshStore();
    assert HasKind(ObjectKey(ROOT_ID), ObjectKind) && ObjectKey(ROOT_ID) in store;
    NextIdUnique(store, ObjectKind, NextId(store, ObjectKind), 1);
    NoStoredObjects(store, 0);
    assert HasObject(store, 0);
    assert StoredArtLinks(store, []) == [];
  }

  lemma FreshMakesMovies(call: Call, s: Session)
    requires s.disk.store == FreshStore() && s.memory == map[] && NextId(FreshStore(), ObjectKind) == 1
    ensures FirstPlaced(s.disk, MemoryOf(s, call.scanner))
            == [Placed(1, 0, FolderView("object.container", "Movies", []))]
    ensures Scan(s.disk, MemoryOf(s, call.scanner), call.path, call.entries, call.config).moviesFolder == 1
  {
    hide ScanBatches, Execute, Commit, NextId;
  }

  // The items among the objects of all scans are their videos, each once.
  lemma {:induction false} CallsScanAllVideos(calls: seq<Call>)
    ensures VideosIn(ForestOfCalls(calls)) == Somes(ScannedByCalls(calls))
    ensures (forall i :: 0 <= i < |calls| ==> DistinctNames(calls[i].entries)) ==>
              multiset(ScannedByCalls(calls)) == multiset(VideosOfCalls(calls))
  {
    hide ForestOf, ScannedVideos, AllVideos, DistinctNames, VideosIn, Somes;
    if calls == [] {
      NoVideos();
    } else {
      var call, rest := calls[0], calls[1..];
      CallsScanAllVideos(rest);
      ForestOfVideos(call.path, call.entries, call.config);
      VideosInAppend(ForestOf(call.path, call.entries, call.config), ForestOfCalls(rest));
      SomesAppend(ScannedVideos(call.path, call.entries), ScannedByCalls(rest));
      if forall i :: 0 <= i < |calls| ==> DistinctNames(calls[i].entries) {
        assert forall i :: 0 <= i < |rest| ==> rest[i] == calls[i + 1];
        ScansAllVideos(call.path, call.entries);
      }
    }
  }

  function ScannedByCalls(calls: seq<Call>): seq<string> {
    if calls == [] then [] else ScannedVideos(calls[0].path, calls[0].entries) + ScannedByCalls(calls[1..])
  }

  function VideosOfCalls(calls: seq<Call>): seq<string> {
    if calls == [] then [] else AllVideos(calls[0].path, calls[0].entries) + VideosOfCalls(calls[1..])
  }

  // The videos of the library are those of the scanned trees.
  lemma LibraryVideos(calls: seq<Call>)
    ensures VideosAmong(LibraryOf(calls)) == Somes(ScannedByCalls(calls))
  {
    CallsScanAllVideos(calls);
    hide ForestOfCalls, ScannedByCalls, VideosIn, Somes, Preorder;
    var root := Placed(0, -1, FolderView("object.container", "", []));
    var movies := Placed(1, 0, FolderView("object.container", "Movies", []));
    assert [root][1..] == [] && [movies][1..] == [];
    if calls == [] {
      NoCallVideos();
    } else {
      var objects := Preorder(ForestOfCalls(calls), 1, 2);
      VideosOfPreorder(ForestOfCalls(calls), 1, 2);
      VideosAmongAppend([movies], objects);
      VideosAmongAppend([root], [movies] + objects);
    }
  }

  lemma NoCallVideos()
    ensures Somes(ScannedByCalls([])) == []
  {
  }
}
