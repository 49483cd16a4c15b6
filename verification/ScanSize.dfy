// How many ids a scan can need, from the size of the tree it reads.
module ScanSize {
  import opened Text
  import opened Keys
  import opened StoreModel
  import opened StoreService
  import opened Folders
  import opened ScanWalk
  import opened ScanPlan
  import opened MovieScanner
  import opened StoreInvariant
  import opened StoreRuns
  import opened ScanSessions

  // ----- One folder -----

  // The part of a folder's size that lies in its subdirectories.
  function SizeBelow(entries: seq<FsEntry>): nat {
    if entries == [] then 0
    else
      var last := entries[|entries| - 1];
      SizeBelow(entries[..|entries| - 1]) + if last.Directory? then Size(last) else 0
  }

  lemma {:induction false} EmplaceSize(files: seq<NamedFile>, file: NamedFile)
    ensures |Emplace(files, file)| <= |files| + 1
  {
    if files != [] {
      EmplaceSize(files[1..], file);
    }
  }

  function MediaFiles(path: string, entries: seq<FsEntry>): nat {
    |Collect(path, entries, VideoFile)| + |Collect(path, entries, ImageFile)| + |Collect(path, entries, TextFile)|
  }

  // Every file is of one kind at most, and no subdirectory of any.
  lemma {:induction false} CollectSize(path: string, entries: seq<FsEntry>)
    ensures MediaFiles(path, entries) + SizeBelow(entries) <= SizeAll(entries)
  {
    hide Emplace, GetMimeType;
    if entries != [] {
      var front, last := entries[..|entries| - 1], entries[|entries| - 1];
      CollectSize(path, front);
      if last.RegularFile? && GetMimeType(last.name).Some? {
        var file := FileOf(path, last.name);
        EmplaceSize(Collect(path, front, VideoFile), file);
        EmplaceSize(Collect(path, front, ImageFile), file);
        EmplaceSize(Collect(path, front, TextFile), file);
      }
    }
  }

  lemma {:induction false} MatchingSize(files: seq<NamedFile>, prefix: string)
    ensures |Matching(files, prefix)| <= |files|
  {
    if files != [] {
      MatchingSize(files[1..], prefix);
    }
  }

  lemma {:induction false} ClassifiedSize(files: seq<NamedFile>, prefix: nat)
    requires forall f :: f in files ==> prefix <= |f.name|
    ensures |Classified(files, prefix)| <= |files|
  {
    hide ClassifyArtwork;
    if files != [] {
      ClassifiedSize(files[..|files| - 1], prefix);
    }
  }

  lemma ItemFilesSize(context: FolderContext, video: NamedFile)
    ensures |ItemFiles(context, video)| <= 1 + |context.artwork| + |context.subtitles|
  {
    hide Matching, Classified, ResourcePrefix;
    var prefix := ResourcePrefix(context.folderName, video.name);
    MatchingSize(context.subtitles, prefix);
    MatchingSize(context.artwork, prefix);
    MatchingHavePrefix(context.artwork, prefix);
    ClassifiedSize(Matching(context.artwork, prefix), |prefix|);
  }

  lemma {:induction false} ComposedSize(context: FolderContext, videos: seq<NamedFile>, nextObject: int,
                                        nextResource: int)
    ensures |ComposeAll(context, videos, nextObject, nextResource).files|
            <= |videos| * (1 + |context.artwork| + |context.subtitles|)
  {
    hide Item, ItemFiles;
    if videos != [] {
      var n := |videos| - 1;
      var each := 1 + |context.artwork| + |context.subtitles|;
      ComposedSize(context, videos[..n], nextObject, nextResource);
      ItemFilesSize(context, videos[n]);
      assert (n + 1) * each == n * each + each;
    }
  }

  // A folder adds one object for each video and one for a collection, and no
  // more resources than the square of the number of its media files.
  lemma FolderSize(path: string, entries: seq<FsEntry>, config: LibraryConfig,
                   parent: int, nextObject: int, nextResource: int)
    ensures
      var own := PlanFolder(path, entries, config, parent, nextObject, nextResource);
      && |Items(own.batches)| <= MediaFiles(path, entries) + (if config.useCollections then 1 else 0)
      && |Resources(own.batches)| <= MediaFiles(path, entries) * MediaFiles(path, entries)
  {
    hide PlanFolder, PlanCollection, PlanItems, Items, Resources, Collect;
    PlanFolderParts(path, entries, config, parent, nextObject, nextResource);
    var first := PlanCollection(path, entries, config, parent, nextObject, nextResource);
    var no, nr := nextObject + |Items(first.batches)|, nextResource + |Resources(first.batches)|;
    var second := PlanItems(path, entries, config, first.itemParent, no, nr);
    ItemsAppend(first.batches, second);
    CollectionSize(path, entries, config, parent, nextObject, nextResource);
    ItemsSize(path, entries, config, first.itemParent, no, nr);
    FitsSquare(|Collect(path, entries, VideoFile)|, |Collect(path, entries, ImageFile)|,
               |Collect(path, entries, TextFile)|);
  }

  lemma FitsSquare(v: nat, i: nat, t: nat)
    ensures v * (1 + i + t) + (if i > 0 then 1 else 0) <= (v + i + t) * (v + i + t)
  {
    var a := i + t;
    assert (v + a) * (v + a) == v * v + 2 * (v * a) + a * a;
    assert v * (1 + a) == v + v * a;
    assert v <= v * v && 0 <= v * a;
    assert a > 0 ==> 1 <= a * a;
  }

  lemma CollectionSize(path: string, entries: seq<FsEntry>, config: LibraryConfig,
                       parent: int, nextObject: int, nextResource: int)
    ensures
      var batches := PlanCollection(path, entries, config, parent, nextObject, nextResource).batches;
      && |Items(batches)| <= (if config.useCollections then 1 else 0)
      && |Resources(batches)| <= (if Collect(path, entries, ImageFile) != [] then 1 else 0)
  {
    hide Collect, Stem, FileName, HasSubdirectory;
    var art := FolderArtwork(Collect(path, entries, ImageFile));
    OneBatch(CollectionBatch(path, art, parent, nextObject, nextResource));
  }

  lemma ItemsSize(path: string, entries: seq<FsEntry>, config: LibraryConfig,
                  parent: int, nextObject: int, nextResource: int)
    ensures
      var batches := PlanItems(path, entries, config, parent, nextObject, nextResource);
      && |Items(batches)| == |Collect(path, entries, VideoFile)|
      && |Resources(batches)| <= |Collect(path, entries, VideoFile)| *
           (1 + |Collect(path, entries, ImageFile)| + |Collect(path, entries, TextFile)|)
  {
    hide Collect, ComposeAll, FolderNameFor;
    var videos := Collect(path, entries, VideoFile);
    var context := ContextOf(path, entries, config, parent);
    ComposedSize(context, videos, nextObject, nextResource);
    OneBatch(ItemsBatch(context, videos, nextObject, nextResource));
  }

  // ----- Whole walks -----

  ghost predicate Within(done: Progress, after: Progress, objects: int, resources: int) {
    && after.nextObject <= done.nextObject + objects
    && after.nextResource <= done.nextResource + resources
  }

  lemma SumOfSquares(a: nat, b: nat, c: nat)
    requires a + b <= c
    ensures a * a + b * b <= c * c
  {
    assert (a + b) * (a + b) == a * a + 2 * (a * b) + b * b;
    assert 0 <= a * b;
    assert (a + b) * (a + b) <= c * c by {
      assert c * c - (a + b) * (a + b) == (c - (a + b)) * (c + (a + b));
    }
  }

  // A walk numbers no more objects than the tree has entries, one more if the
  // top can be a collection, and no more resources than the square of that.
  lemma {:induction false} WalkTreeSize(config: LibraryConfig, path: string, entries: seq<FsEntry>, collections: bool,
                                        parent: int, done: Progress)
    ensures Within(done, WalkTree(Planner(config), path, entries, collections, config.useCollections, parent, done),
                   SizeAll(entries) + (if collections then 1 else 0), SizeAll(entries) * SizeAll(entries))
    decreases entries, 1
  {
    hide PlanFolder, MediaFiles, SizeBelow, SizeAll, Items, Resources;
    var own := PlanFolder(path, entries, config.(useCollections := collections),
                          parent, done.nextObject, done.nextResource);
    FolderSize(path, entries, config.(useCollections := collections), parent, done.nextObject, done.nextResource);
    WalkBelowSize(config, path, entries, own.childParent, done.Then(own.batches));
    CollectSize(path, entries);
    SumOfSquares(MediaFiles(path, entries), SizeBelow(entries), SizeAll(entries));
  }

  lemma {:induction false} WalkBelowSize(config: LibraryConfig, path: string, entries: seq<FsEntry>,
                                         parent: int, done: Progress)
    ensures Within(done, WalkSubfolders(Planner(config), path, entries, config.useCollections, parent, done),
                   SizeBelow(entries), SizeBelow(entries) * SizeBelow(entries))
    decreases entries, 0
  {
    hide Planner;
    if entries != [] {
      var front, last := entries[..|entries| - 1], entries[|entries| - 1];
      var next := done;
      if last.Directory? {
        WalkTreeSize(config, Join(path, last.name), last.entries, config.useCollections, parent, done);
        next := WalkTree(Planner(config), Join(path, last.name), last.entries, config.useCollections,
                         config.useCollections, parent, done);
        SumOfSquares(SizeBelow(front), SizeAll(last.entries), SizeBelow(entries));
      }
      WalkBelowSize(config, path, front, parent, next);
    }
  }

  // ----- Scans and sessions -----

  // Whatever writes fail, a scan leaves no id above those it numbers.
  lemma ScanStaysWithin(disk: Disk, remembered: int, path: string, entries: seq<FsEntry>, config: LibraryConfig)
    requires disk.raised.None? && Consistent(disk.store)
    ensures var after := Scan(disk, remembered, path, entries, config).disk.store;
            && NextId(after, ObjectKind) <= NextId(disk.store, ObjectKind) + 1 + SizeAll(entries)
            && NextId(after, ResourceKind) <= NextId(disk.store, ResourceKind) + SizeAll(entries) * SizeAll(entries)
  {
    hide Consistent, Above, RunOk, MoviesFolderOf, ScanBatches, Execute, CreatesMovies, Items, Resources, NextId;
    var no, nr := NextId(disk.store, ObjectKind), NextId(disk.store, ResourceKind);
    var search := MoviesFolderOf(disk, remembered, no);
    SearchKeepsConsistent(disk, remembered);
    ScanBatchesOk(path, entries, config, search.moviesFolder, search.nextObject, nr);
    var done := ScanBatches(path, entries, config, search.moviesFolder, search.nextObject, nr);
    RunKeepsConsistent(done.batches, {search.moviesFolder}, search.disk, search.nextObject, nr);
    ScanBatchesSize(path, entries, config, search.moviesFolder, search.nextObject, nr);
    NextIdBelow(Execute(done.batches, search.disk).store, done.nextObject, done.nextResource);
  }

  lemma ScanBatchesSize(path: string, entries: seq<FsEntry>, config: LibraryConfig,
                        parent: int, nextObject: int, nextResource: int)
    ensures var done := ScanBatches(path, entries, config, parent, nextObject, nextResource);
            && done.nextObject <= nextObject + SizeAll(entries)
            && done.nextResource <= nextResource + SizeAll(entries) * SizeAll(entries)
  {
    hide WalkTree, Planner, SizeAll;
    WalkTreeSize(config, path, entries, false, parent, Progress([], nextObject, nextResource));
  }

  lemma NextIdBelow(store: Store, nextObject: int, nextResource: int)
    requires Above(store, nextObject, nextResource) && nextObject >= 0 && nextResource >= 0
    ensures NextId(store, ObjectKind) <= nextObject && NextId(store, ResourceKind) <= nextResource
  {
  }

  // The ids that a list of scans can need.
  function ObjectsNeeded(calls: seq<Call>): nat {
    if calls == [] then 0 else 1 + SizeAll(calls[0].entries) + ObjectsNeeded(calls[1..])
  }

  function ResourcesNeeded(calls: seq<Call>): nat {
    if calls == [] then 0
    else
      var size := SizeAll(calls[0].entries);
      size * size + ResourcesNeeded(calls[1..])
  }

  // The ids of a store stay within 64 bits during a list of scans.
  ghost predicate Headroom(calls: seq<Call>, store: Store) {
    && NextId(store, ObjectKind) + ObjectsNeeded(calls) <= INT64_MAX
    && NextId(store, ResourceKind) + ResourcesNeeded(calls) <= INT64_MAX
  }

  lemma HeadroomBounds(calls: seq<Call>, store: Store)
    requires Headroom(calls, store)
    ensures IdsBelowMaximum(store)
  {
    forall k | k in store && k != NoKey ensures k.id < INT64_MAX {
      assert HasKind(k, if k.ObjectKey? then ObjectKind else ResourceKind);
    }
  }

  // Room for all scans is room for the later ones after the first.
  lemma HeadroomLeft(calls: seq<Call>, s: Session)
    requires calls != [] && s.disk.raised.None? && Consistent(s.disk.store) && Headroom(calls, s.disk.store)
    ensures Headroom(calls[1..], RunCall(calls[0], s).disk.store)
  {
    hide Scan, Written, Consistent, NextId, SizeAll;
    var call := calls[0];
    ScanStaysWithin(s.disk, MemoryOf(s, call.scanner), call.path, call.entries, call.config);
  }

  lemma FreshHeadroom(calls: seq<Call>)
    requires ObjectsNeeded(calls) < INT64_MAX && ResourcesNeeded(calls) <= INT64_MAX
    ensures Headroom(calls, FreshStore())
  {
    var store := FreshStore();
    NextIdBelow(store, 1, 0);
  }
}
