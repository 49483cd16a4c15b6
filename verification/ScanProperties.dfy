// What every scan writes: consecutive ids, parents that are known containers,
// and items that refer to each of their resources once.
module ScanProperties {
  import opened Wrappers
  import opened Text
  import opened Titles
  import opened Keys
  import opened Records
  import opened StoreModel
  import opened Folders
  import opened ScanWalk
  import opened ScanPlan
  import opened StoreInvariant
  import opened StoreRuns

  // ----- Elements of the numbered lists -----

  lemma {:induction false} RefsToAre(files: seq<NamedFile>, first: int)
    ensures forall i :: 0 <= i < |files| ==> RefsTo(files, first)[i] == RefTo(first + i, files[i].info)
  {
    hide RefTo;
    if files != [] {
      RefsToAre(files[..|files| - 1], first);
    }
  }

  lemma {:induction false} ArtworkRefsAre(art: seq<ArtFile>, first: int)
    ensures forall i :: 0 <= i < |art| ==>
              ArtworkRefs(art, first)[i] == Artwork(ResourceKey(first + i), art[i].artType)
  {
    if art != [] {
      ArtworkRefsAre(art[..|art| - 1], first);
    }
  }

  lemma {:induction false} NumberedAre(files: seq<FileInfo>, first: int)
    ensures forall i :: 0 <= i < |files| ==>
              Numbered(files, first)[i] == StoredResource(first + i, ToResource(files[i]))
  {
    hide ToResource;
    if files != [] {
      NumberedAre(files[..|files| - 1], first);
    }
  }

  // ----- Sorting artwork by type -----

  ghost predicate InOrder(refs: seq<Artwork>, first: int) {
    forall i :: 0 <= i < |refs| ==> refs[i].ref == ResourceKey(first + i)
  }

  lemma CountNext<T>(s: seq<T>, last: T, x: T)
    ensures multiset(s + [last])[x] == multiset(s)[x] + if x == last then 1 else 0
  {
    assert multiset(s + [last]) == multiset(s) + multiset{last};
  }

  lemma {:induction false} TypeCount(refs: seq<Artwork>, artType: ArtworkType, x: Artwork)
    ensures multiset(OfType(refs, artType))[x] == if x.artType == artType then multiset(refs)[x] else 0
  {
    if refs != [] {
      var front, last := refs[..|refs| - 1], refs[|refs| - 1];
      TypeCount(front, artType, x);
      assert refs == front + [last];
      CountNext(front, last, x);
      CountNext(OfType(front, artType), last, x);
    }
  }

  lemma SortPermutes(refs: seq<Artwork>)
    ensures multiset(SortedByType(refs)) == multiset(refs)
  {
    hide OfType;
    var posters, thumbnails := OfType(refs, Poster), OfType(refs, Thumbnail);
    assert multiset(posters + thumbnails) == multiset(posters) + multiset(thumbnails);
    forall x: Artwork ensures multiset(SortedByType(refs))[x] == multiset(refs)[x] {
      TypeCount(refs, Poster, x);
      TypeCount(refs, Thumbnail, x);
    }
  }

  lemma {:induction false} CountedOnce<T>(s: seq<T>, x: T)
    requires NoRepeats(s)
    ensures multiset(s)[x] <= 1
  {
    if s != [] {
      var n := |s| - 1;
      CountedOnce(s[..n], x);
      assert s == s[..n] + [s[n]];
      if x == s[n] {
        assert x !in s[..n];
        assert multiset(s[..n])[x] == 0;
      }
    }
  }

  lemma CountedTwice<T>(s: seq<T>, i: nat, j: nat)
    requires i < j < |s| && s[i] == s[j]
    ensures multiset(s)[s[i]] >= 2
  {
    var front, back := s[..j], s[j..];
    assert s == front + back;
    assert front[i] in front && back[0] in back;
  }

  lemma DistinctPermuted<T>(a: seq<T>, b: seq<T>)
    requires NoRepeats(a) && multiset(a) == multiset(b)
    ensures NoRepeats(b)
  {
    forall i, j | 0 <= i < j < |b| ensures b[i] != b[j] {
      CountedOnce(a, b[i]);
      if b[i] == b[j] {
        CountedTwice(b, i, j);
      }
    }
  }

  lemma SameMembers<T>(a: seq<T>, b: seq<T>)
    requires multiset(a) == multiset(b)
    ensures |a| == |b| && forall x :: x in a <==> x in b
  {
    assert |multiset(a)| == |a| && |multiset(b)| == |b|;
    forall x ensures x in a <==> x in b {
      assert x in a <==> x in multiset(a);
    }
  }

  // Sorting keeps every reference, once.
  lemma SortedKeepsRefs(refs: seq<Artwork>, first: int)
    requires InOrder(refs, first)
    ensures var r := SortedByType(refs);
            && |r| == |refs|
            && (forall j :: 0 <= j < |r| ==> r[j].ref.ResourceKey? && first <= r[j].ref.id < first + |refs|)
            && (forall j, k :: 0 <= j < k < |r| ==> r[j].ref != r[k].ref)
  {
    var r := SortedByType(refs);
    SortPermutes(refs);
    hide SortedByType;
    assert NoRepeats(refs) by {
      assert forall i, j :: 0 <= i < j < |refs| ==> refs[i].ref != refs[j].ref;
    }
    DistinctPermuted(refs, r);
    SameMembers(r, refs);
    forall j, k | 0 <= j < k < |r| ensures r[j].ref != r[k].ref {
      assert r[j] in r && r[k] in r;
      var i :| 0 <= i < |refs| && refs[i] == r[j];
      var l :| 0 <= l < |refs| && refs[l] == r[k];
      assert i != l;
    }
    forall j | 0 <= j < |r| ensures r[j].ref.ResourceKey? && first <= r[j].ref.id < first + |refs| {
      assert r[j] in r;
      var i :| 0 <= i < |refs| && refs[i] == r[j];
    }
  }

  lemma SortedFinds(refs: seq<Artwork>, first: int, id: int) returns (j: nat)
    requires InOrder(refs, first) && first <= id < first + |refs|
    ensures j < |SortedByType(refs)| && SortedByType(refs)[j].ref == ResourceKey(id)
  {
    var r := SortedByType(refs);
    SortPermutes(refs);
    hide SortedByType;
    SameMembers(r, refs);
    var x := refs[id - first];
    assert x in refs;
    assert x.ref == ResourceKey(first + (id - first));
    j :| 0 <= j < |r| && r[j] == x;
  }

  // ----- Items -----

  lemma ItemRefs(context: FolderContext, video: NamedFile, id: int, first: int)
    ensures
      var item := Item(context, video, id, first);
      var art := SortedByType(ArtworkRefs(ArtOf(context, video), first + 1));
      var m, s := |ArtOf(context, video)|, |ItemSubtitles(context, video)|;
      && |art| == m
      && |Refs(item)| == m + 1 + s == |ItemFiles(context, video)|
      && (forall j :: 0 <= j < m ==> Refs(item)[j] == art[j].ref)
      && (forall j :: m <= j < m + 1 + s ==>
            Refs(item)[j] == ResourceKey(if j == m then first else first + 1 + j - 1))
  {
    hide ArtOf, ItemSubtitles, NormalizedTitle, DateOf, SortedByType, RefsTo, ArtworkRefs, ResourcePrefix;
    var art := ArtOf(context, video);
    var subs := ItemSubtitles(context, video);
    ArtworkRefsAre(art, first + 1);
    SortedKeepsRefs(ArtworkRefs(art, first + 1), first + 1);
    RefsToAre(subs, first + 1 + |art|);
  }

  // An item refers to each of the resources stored for it exactly once.
  lemma ItemCovers(context: FolderContext, video: NamedFile, id: int, first: int)
    ensures Covers(Item(context, video, id, first), first, first + |ItemFiles(context, video)|)
  {
    hide Item, ItemFiles, ArtOf, ItemSubtitles, SortedByType, ArtworkRefs, Refs;
    var item := Item(context, video, id, first);
    var m, s := |ArtOf(context, video)|, |ItemSubtitles(context, video)|;
    var art := SortedByType(ArtworkRefs(ArtOf(context, video), first + 1));
    ItemRefs(context, video, id, first);
    ArtworkRefsAre(ArtOf(context, video), first + 1);
    SortedKeepsRefs(ArtworkRefs(ArtOf(context, video), first + 1), first + 1);
    var refs := Refs(item);
    forall r | first <= r < first + m + 1 + s ensures ResourceKey(r) in refs {
      if r == first {
        assert refs[m] == ResourceKey(r);
      } else if r <= first + m {
        var j := SortedFinds(ArtworkRefs(ArtOf(context, video), first + 1), first + 1, r);
        assert refs[j] == ResourceKey(r);
      } else {
        assert refs[r - first] == ResourceKey(r);
      }
    }
  }

  lemma ItemIsNew(context: FolderContext, video: NamedFile, id: int, first: int)
    ensures var item := Item(context, video, id, first);
            item.id == id && item.parentId == context.parent && NewObject(item) && item.data.MediaItem?
  {
    hide ArtOf, ItemSubtitles, NormalizedTitle, DateOf, SortedByType, RefsTo, ArtworkRefs, ResourcePrefix;
  }

  lemma {:induction false} ComposedAreOk(context: FolderContext, videos: seq<NamedFile>, nextObject: int,
                                         nextResource: int)
    ensures
      var composed := ComposeAll(context, videos, nextObject, nextResource);
      && (forall i :: 0 <= i < |videos| ==>
            && composed.items[i].id == nextObject + i && composed.items[i].parentId == context.parent
            && NewObject(composed.items[i]) && composed.items[i].data.MediaItem?)
      && Partition(composed.items, nextResource, nextResource + |composed.files|)
  {
    hide Item, ItemFiles, Covers, Refs, Partition, NewObject;
    if videos == [] {
      NoPartition(nextResource);
    } else {
      var n := |videos| - 1;
      assert videos[..n + 1] == videos;
      ComposeAllNext(context, videos, n, nextObject, nextResource);
      ComposedAreOk(context, videos[..n], nextObject, nextResource);
      var before := ComposeAll(context, videos[..n], nextObject, nextResource);
      var first := nextResource + |before.files|;
      var item := Item(context, videos[n], nextObject + n, first);
      ItemIsNew(context, videos[n], nextObject + n, first);
      ItemCovers(context, videos[n], nextObject + n, first);
      PartitionNext(before.items, item, nextResource, first, first + |ItemFiles(context, videos[n])|);
    }
  }

  lemma NoPartition(lo: int)
    ensures Partition([], lo, lo)
  {
  }

  lemma PartitionNext(items: seq<MediaObject>, item: MediaObject, lo: int, middle: int, hi: int)
    requires Partition(items, lo, middle) && Covers(item, middle, hi)
    ensures Partition(items + [item], lo, hi)
  {
    hide Refs;
    assert (items + [item])[..|items|] == items;
    PartitionRange(items, lo, middle);
  }

  // ----- Batches -----

  lemma ItemsBatchOk(context: FolderContext, videos: seq<NamedFile>, nextObject: int, nextResource: int)
    requires nextObject >= 0 && nextResource >= 0
    ensures BatchOk(ItemsBatch(context, videos, nextObject, nextResource), nextObject, nextResource)
    ensures ItemsBatch(context, videos, nextObject, nextResource).parent == context.parent
  {
    hide ComposeAll, Partition, NewObject;
    ComposedAreOk(context, videos, nextObject, nextResource);
    NumberedAre(ComposeAll(context, videos, nextObject, nextResource).files, nextResource);
  }

  lemma CollectionBatchOk(path: string, art: Option<ArtFile>, parent: int, nextObject: int, nextResource: int)
    requires nextObject >= 0 && nextResource >= 0
    ensures
      var batch := CollectionBatch(path, art, parent, nextObject, nextResource);
      && BatchOk(batch, nextObject, nextResource) && batch.parent == parent
      && |batch.items| == 1 && batch.items[0].data.MediaContainer?
  {
    hide Stem, FileName, Partition, Covers, Refs, Numbered, ToResource;
    var batch := CollectionBatch(path, art, parent, nextObject, nextResource);
    if art.Some? {
      NumberedAre([art.value.info], nextResource);
    }
    CollectionCovers(nextObject, Stem(FileName(path)), art, parent, nextResource);
    OnePartition(batch.items[0], nextResource, nextResource + |batch.resources|);
    assert batch.items == [batch.items[0]];
  }

  lemma CollectionCovers(id: int, name: string, art: Option<ArtFile>, parent: int, resource: int)
    ensures Covers(Collection(id, name, art, parent, resource), resource, resource + if art.Some? then 1 else 0)
  {
    var item := Collection(id, name, art, parent, resource);
    var keys := if art.Some? then [ResourceKey(resource)] else [];
    assert Refs(item) == keys;
    hide Refs;
    if art.Some? {
      assert keys[0] == ResourceKey(resource);
    }
  }

  lemma OnePartition(media: MediaObject, lo: int, hi: int)
    requires Covers(media, lo, hi)
    ensures Partition([media], lo, hi)
  {
    assert [media][..0] == [];
  }

  // The batches of one directory are sound, and so is the parent it hands down.
  lemma PlanFolderOk(path: string, entries: seq<FsEntry>, config: LibraryConfig,
                     parent: int, nextObject: int, nextResource: int, known: set<int>)
    requires parent in known && parent > 0 && nextObject > 0 && nextResource >= 0
    ensures
      var own := PlanFolder(path, entries, config, parent, nextObject, nextResource);
      && RunOk(own.batches, known, nextObject, nextResource)
      && own.childParent > 0 && own.childParent in known + Containers(Items(own.batches))
  {
    hide BatchOk, Containers, Items, Resources, RunOk, PlanFolder, PlanCollection, PlanItems;
    PlanFolderParts(path, entries, config, parent, nextObject, nextResource);
    var first := PlanCollection(path, entries, config, parent, nextObject, nextResource);
    var no, nr := nextObject + |Items(first.batches)|, nextResource + |Resources(first.batches)|;
    var second := PlanItems(path, entries, config, first.itemParent, no, nr);
    CollectionOk(path, entries, config, parent, nextObject, nextResource, known);
    ItemsOk(path, entries, config, first.itemParent, no, nr, known + Containers(Items(first.batches)));
    RunOkAppend(first.batches, second, known, nextObject, nextResource);
    ItemsAppend(first.batches, second);
    ContainersAppend(Items(first.batches), Items(second));
    assert Containers(Items(first.batches + second)) == Containers(Items(first.batches)) + Containers(Items(second));
  }

  lemma CollectionOk(path: string, entries: seq<FsEntry>, config: LibraryConfig,
                     parent: int, nextObject: int, nextResource: int, known: set<int>)
    requires parent in known && parent > 0 && nextObject > 0 && nextResource >= 0
    ensures
      var first := PlanCollection(path, entries, config, parent, nextObject, nextResource);
      var after := known + Containers(Items(first.batches));
      && RunOk(first.batches, known, nextObject, nextResource)
      && first.itemParent > 0 && first.itemParent in after
      && first.childParent > 0 && first.childParent in after
  {
    hide Collect, BatchOk, CollectionBatch, FolderArtwork, MakesCollection, HasSubdirectory;
    var art := FolderArtwork(Collect(path, entries, ImageFile));
    var batch := CollectionBatch(path, art, parent, nextObject, nextResource);
    CollectionBatchOk(path, art, parent, nextObject, nextResource);
    OneBatchOk(batch, known, nextObject, nextResource);
    FirstId(batch, nextObject, nextResource);
    NoContainers();
  }

  lemma FirstId(batch: Batch, nextObject: int, nextResource: int)
    requires BatchOk(batch, nextObject, nextResource) && |batch.items| == 1 && batch.items[0].data.MediaContainer?
    ensures nextObject in Containers(batch.items)
  {
    assert batch.items[0].id == nextObject;
  }

  lemma OneBatchOk(batch: Batch, known: set<int>, nextObject: int, nextResource: int)
    ensures Items([batch]) == batch.items && Resources([batch]) == batch.resources
    ensures BatchOk(batch, nextObject, nextResource) && batch.parent in known && batch.parent > 0
            ==> RunOk([batch], known, nextObject, nextResource)
  {
    hide BatchOk, Containers;
    assert [batch][1..] == [];
  }

  lemma ItemsOk(path: string, entries: seq<FsEntry>, config: LibraryConfig,
                parent: int, nextObject: int, nextResource: int, known: set<int>)
    requires parent in known && parent > 0 && nextObject > 0 && nextResource >= 0
    ensures RunOk(PlanItems(path, entries, config, parent, nextObject, nextResource), known, nextObject, nextResource)
  {
    hide Collect, BatchOk, ItemsBatch, FolderNameFor;
    var context := ContextOf(path, entries, config, parent);
    var batch := ItemsBatch(context, Collect(path, entries, VideoFile), nextObject, nextResource);
    ItemsBatchOk(context, Collect(path, entries, VideoFile), nextObject, nextResource);
    OneBatchOk(batch, known, nextObject, nextResource);
  }

  // ----- Whole walks -----

  // Sound batches from the given counters on, up to the walk's own counters.
  ghost predicate WalkOk(done: Progress, known: set<int>, nextObject: int, nextResource: int) {
    && nextObject > 0 && nextResource >= 0
    && RunOk(done.batches, known, nextObject, nextResource)
    && done.nextObject == nextObject + |Items(done.batches)|
    && done.nextResource == nextResource + |Resources(done.batches)|
  }

  ghost predicate KnownAfter(parent: int, done: Progress, known: set<int>) {
    parent > 0 && parent in known + Containers(Items(done.batches))
  }

  lemma StillKnown(parent: int, done: Progress, later: Progress, known: set<int>)
    requires KnownAfter(parent, done, known) && done.batches <= later.batches
    ensures KnownAfter(parent, later, known)
  {
    hide Containers, Items;
    var rest := later.batches[|done.batches|..];
    assert later.batches == done.batches + rest;
    ItemsAppend(done.batches, rest);
    ContainersAppend(Items(done.batches), Items(rest));
  }

  lemma ThenOk(done: Progress, own: FolderPlan, known: set<int>, nextObject: int, nextResource: int)
    requires WalkOk(done, known, nextObject, nextResource)
    requires RunOk(own.batches, known + Containers(Items(done.batches)), done.nextObject, done.nextResource)
    requires own.childParent > 0
    requires own.childParent in (known + Containers(Items(done.batches))) + Containers(Items(own.batches))
    ensures WalkOk(done.Then(own.batches), known, nextObject, nextResource)
    ensures KnownAfter(own.childParent, done.Then(own.batches), known)
  {
    hide RunOk, Containers, Items, Resources;
    RunOkAppend(done.batches, own.batches, known, nextObject, nextResource);
    ItemsAppend(done.batches, own.batches);
    ContainersAppend(Items(done.batches), Items(own.batches));
  }

  lemma {:induction false} WalkTreeOk(
    config: LibraryConfig, path: string, entries: seq<FsEntry>, collections: bool, parent: int,
    done: Progress, known: set<int>, nextObject: int, nextResource: int)
    requires WalkOk(done, known, nextObject, nextResource) && KnownAfter(parent, done, known)
    ensures WalkOk(WalkTree(Planner(config), path, entries, collections, config.useCollections, parent, done),
                   known, nextObject, nextResource)
    decreases entries, 1
  {
    hide RunOk, Containers, Items, Resources, PlanFolder;
    var own := PlanFolder(path, entries, config.(useCollections := collections),
                          parent, done.nextObject, done.nextResource);
    PlanFolderOk(path, entries, config.(useCollections := collections), parent, done.nextObject, done.nextResource,
                 known + Containers(Items(done.batches)));
    ThenOk(done, own, known, nextObject, nextResource);
    WalkSubfoldersOk(config, path, entries, own.childParent, done.Then(own.batches), known, nextObject, nextResource);
  }

  lemma {:induction false} WalkSubfoldersOk(
    config: LibraryConfig, path: string, entries: seq<FsEntry>, parent: int,
    done: Progress, known: set<int>, nextObject: int, nextResource: int)
    requires WalkOk(done, known, nextObject, nextResource) && KnownAfter(parent, done, known)
    ensures WalkOk(WalkSubfolders(Planner(config), path, entries, config.useCollections, parent, done),
                   known, nextObject, nextResource)
    decreases entries, 0
  {
    hide WalkOk, KnownAfter, Planner;
    if entries != [] {
      var front, last := entries[..|entries| - 1], entries[|entries| - 1];
      var next := done;
      if last.Directory? {
        WalkTreeOk(config, Join(path, last.name), last.entries, config.useCollections, parent, done,
                   known, nextObject, nextResource);
        next := WalkTree(Planner(config), Join(path, last.name), last.entries, config.useCollections,
                         config.useCollections, parent, done);
        WalkTreeExtends(Planner(config), Join(path, last.name), last.entries, config.useCollections,
                        config.useCollections, parent, done);
        StillKnown(parent, done, next, known);
      }
      WalkSubfoldersOk(config, path, front, parent, next, known, nextObject, nextResource);
    }
  }
}
