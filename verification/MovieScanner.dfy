// The scanner: reads directory trees and puts what it finds in the store.
module MovieScanner {
  import opened Wrappers
  import opened Text
  import opened Titles
  import opened Keys
  import opened Records
  import opened KeyValue
  import opened StoreModel
  import opened StoreService
  import opened Folders
  import opened ScanWalk
  import opened ScanPlan

  // ----- What one scan does to a database -----

  // The first child with the title of the movies folder.
  function FindByTitle(store: Store, keys: seq<LibraryKey>): Result<Option<int>, StoreError> {
    if keys == [] then Ok(None)
    else
      match ReadObject(store, keys[0])
      case Err(e) => Err(e)
      case Ok(media) =>
        if media.dcTitle == "Movies" then Ok(Some(media.id)) else FindByTitle(store, keys[1..])
  }

  function FindMovies(store: Store): Result<Option<int>, StoreError> {
    match ReadContainer(store, ROOT_ID)
    case Err(e) => Err(e)
    case Ok(root) => FindByTitle(store, ChildKeys(root))
  }

  function MoviesBatch(id: int): Batch {
    Batch(ROOT_ID, [MoviesFolder(id, ROOT_ID)], [])
  }

  // The database, the movies folder a scanner remembers, and the next object id.
  datatype FolderSearch = FolderSearch(disk: Disk, moviesFolder: int, nextObject: int)

  ghost function MoviesFolderOf(disk: Disk, remembered: int, nextObject: int): FolderSearch {
    if remembered > 0 then FolderSearch(disk, remembered, nextObject)
    else
      match FindMovies(disk.store)
      case Err(e) => FolderSearch(disk.(raised := Some(e)), remembered, nextObject)
      case Ok(Some(id)) => FolderSearch(disk, id, nextObject)
      case Ok(None) =>
        var after := Commit(MoviesBatch(nextObject), disk);
        FolderSearch(after, nextObject, nextObject + 1)
  }

  // All batches of a scan below the movies folder, by the recursive walk.
  // Collections are never made at the root of the scanned tree.
  function ScanBatches(path: string, entries: seq<FsEntry>, config: LibraryConfig,
                       moviesFolder: int, nextObject: int, nextResource: int): Progress
  {
    WalkTree(Planner(config), path, entries, false, config.useCollections, moviesFolder,
             Progress([], nextObject, nextResource))
  }

  datatype ScanResult = ScanResult(disk: Disk, moviesFolder: int)

  ghost function Scan(disk: Disk, remembered: int, path: string, entries: seq<FsEntry>,
                      config: LibraryConfig): ScanResult
  {
    var search := MoviesFolderOf(disk, remembered, NextId(disk.store, ObjectKind));
    var batches := ScanBatches(path, entries, config, search.moviesFolder, search.nextObject,
                               NextId(disk.store, ResourceKind)).batches;
    ScanResult(Execute(batches, search.disk), search.moviesFolder)
  }

  // ----- The scanner's code -----

  class ObjectComposer {
    const context: MovieScanner
    var folderName: string
    var resources: seq<StoredResource>
    var subtitles: seq<NamedFile>
    var artwork: seq<NamedFile>
    var parentId: int
    // The files stored so far, and the id of the first of them.
    ghost var stored: seq<FileInfo>
    ghost var first: int

    constructor (context: MovieScanner, parentId: int)
      ensures this.context == context && this.parentId == parentId
      ensures folderName == "" && resources == [] && subtitles == [] && artwork == []
    {
      this.context := context;
      this.parentId := parentId;
      folderName, resources, subtitles, artwork := "", [], [], [];
      stored, first := [], 0;
    }

    function Folder(): FolderContext
      reads this
    {
      FolderContext(folderName, artwork, subtitles, parentId)
    }

    ghost predicate SortedMaps()
      reads this
    {
      Ascending(artwork) && Ascending(subtitles)
    }

    // The resources are the stored files, numbered from the first id up to
    // the scanner's next free one.
    ghost predicate Numbering()
      reads this, context`nextResourceId
    {
      resources == Numbered(stored, first) && context.nextResourceId == first + |stored|
    }

    method AddArtwork(file: NamedFile)
      modifies this`artwork
      ensures artwork == Emplace(old(artwork), file)
    {
      artwork := Emplace(artwork, file);
    }

    method AddSubtitles(file: NamedFile)
      modifies this`subtitles
      ensures subtitles == Emplace(old(subtitles), file)
    {
      subtitles := Emplace(subtitles, file);
    }

    method StoreResource(info: FileInfo) returns (id: int)
      requires Numbering()
      modifies this`resources, this`stored, context`nextResourceId
      ensures Numbering()
      ensures stored == old(stored) + [info] && id == first + |old(stored)|
    {
      NextNumbered(stored, info, first);
      var resource := context.SerializeResource(info);
      resources := resources + [resource];
      stored := stored + [info];
      id := resource.key;
    }

    method GetFolderArtwork() returns (r: Option<ArtFile>)
      ensures r == FolderArtwork(artwork)
    {
      var candidates := [("poster.jpg", Poster), ("folder.jpg", Thumbnail)];
      var i := 0;
      while i < |candidates|
        invariant 0 <= i <= |candidates|
        invariant i >= 1 ==> FindFile(artwork, "poster.jpg").None?
        invariant i >= 2 ==> FindFile(artwork, "folder.jpg").None?
      {
        var found := FindFile(artwork, candidates[i].0);
        if found.Some? {
          return Some(ArtFile(found.value, candidates[i].1));
        }
        i := i + 1;
      }
      return None;
    }

    // Builds the item of one video, storing a resource for every file it uses.
    method Compose(video: NamedFile) returns (item: MediaObject)
      requires SortedMaps() && Numbering()
      modifies this`resources, this`stored, context`nextResourceId, context`nextObjectId
      ensures Numbering() && stored == old(stored) + ItemFiles(Folder(), video)
      ensures item == Item(Folder(), video, old(context.nextObjectId), first + |old(stored)|)
      ensures context.nextObjectId == old(context.nextObjectId) + 1
    {
      ghost var folder, start := Folder(), |stored|;
      hide Item, ItemFiles, NormalizedTitle, DateOf, SortedByType, ItemArtwork, Matching, RefsTo, ArtworkRefs,
        ResourcePrefix, RefTo, Numbering, SortedMaps;
      var prefix := ResourcePrefix(folderName, video.name);
      var itemArtwork, itemResources := ComposeFiles(video, prefix);
      var title, year := NormalizeTitle(if folderName == "" then prefix else folderName);
      var id := context.NextObjectKey();
      item := MediaObject(
        id, parentId, title, MovieClass, SortedByType(itemArtwork), DateOf(year), MediaItem(itemResources));
      ItemIs(folder, video, id, first + start, Title(title, year));
    }

    // Stores the item's files: the video, its artwork and its subtitles.
    method ComposeFiles(video: NamedFile, prefix: string) returns (itemArtwork: seq<Artwork>, refs: seq<ResourceRef>)
      requires SortedMaps() && Numbering()
      requires prefix == ResourcePrefix(folderName, video.name)
      modifies this`resources, this`stored, context`nextResourceId
      ensures Numbering() && stored == old(stored) + ItemFiles(Folder(), video)
      ensures itemArtwork == ArtworkRefs(ItemArtwork(artwork, prefix), first + |old(stored)| + 1)
      ensures refs == [RefTo(first + |old(stored)|, video.info)]
                + RefsTo(Matching(subtitles, prefix), first + |old(stored)| + 1 + |ItemArtwork(artwork, prefix)|)
    {
      hide ItemArtwork, Matching, RefsTo, ArtworkRefs, ArtInfos, Infos, RefTo, Numbering;
      var mainId := StoreResource(video.info);
      ghost var files;
      files, itemArtwork := ComposeArtwork(prefix);
      var subtitleRefs := ComposeSubtitles(prefix);
      refs := [RefTo(mainId, video.info)] + subtitleRefs;
      Regroup(old(stored), [video.info], ArtInfos(files), Infos(Matching(subtitles, prefix)));
    }

    // References to the subtitles that match the item.
    method ComposeSubtitles(prefix: string) returns (refs: seq<ResourceRef>)
      requires SortedMaps() && Numbering()
      modifies this`resources, this`stored, context`nextResourceId
      ensures Numbering() && stored == old(stored) + Infos(Matching(subtitles, prefix))
      ensures refs == RefsTo(Matching(subtitles, prefix), first + |old(stored)|)
    {
      hide Matching, RefsTo, Infos, RefTo, Ascending, LowerBoundName, Less, Numbering;
      ghost var start := first + |stored|;
      refs := [];
      var lo := LowerBoundName(subtitles, prefix);
      var i := lo;
      assert subtitles[lo..lo] == [];
      while i < |subtitles|
        invariant lo <= i <= |subtitles|
        invariant forall k :: lo <= k < i ==> prefix <= subtitles[k].name
        invariant refs == RefsTo(subtitles[lo..i], start)
        invariant Numbering() && stored == old(stored) + Infos(subtitles[lo..i])
      {
        if !(prefix <= subtitles[i].name) {
          break;
        }
        var id := StoreResource(subtitles[i].info);
        NextFile(subtitles[lo..i], subtitles[i], start);
        assert subtitles[lo..i + 1] == subtitles[lo..i] + [subtitles[i]];
        refs := refs + [RefTo(id, subtitles[i].info)];
        i := i + 1;
      }
      PrefixBlock(subtitles, prefix, i);
    }

    // The item's own artwork or, failing that, the folder's.
    method ComposeArtwork(prefix: string) returns (ghost files: seq<ArtFile>, refs: seq<Artwork>)
      requires SortedMaps() && Numbering()
      modifies this`resources, this`stored, context`nextResourceId
      ensures files == ItemArtwork(artwork, prefix)
      ensures Numbering() && stored == old(stored) + ArtInfos(files)
      ensures refs == ArtworkRefs(files, first + |old(stored)|)
    {
      hide OwnArtwork, FolderArtwork, Numbering;
      files, refs := ComposeOwnArtwork(prefix);
      if refs == [] {
        var folder := GetFolderArtwork();
        if folder.Some? {
          var id := StoreResource(folder.value.info);
          refs := [Artwork(ResourceKey(id), folder.value.artType)];
          files := [folder.value];
        }
      }
    }

    method ComposeOwnArtwork(prefix: string) returns (ghost files: seq<ArtFile>, refs: seq<Artwork>)
      requires SortedMaps() && Numbering()
      modifies this`resources, this`stored, context`nextResourceId
      ensures files == OwnArtwork(artwork, prefix)
      ensures Numbering() && stored == old(stored) + ArtInfos(files)
      ensures refs == ArtworkRefs(files, first + |old(stored)|)
    {
      hide OwnArtwork, Classified, Matching, ArtworkRefs, ArtInfos, Ascending, LowerBoundName, Less, ClassifyArtwork,
        Numbering;
      ghost var start := first + |stored|;
      OwnArtworkIs(artwork, prefix);
      files, refs := [], [];
      var lo := LowerBoundName(artwork, prefix);
      var i := lo;
      assert artwork[lo..lo] == [];
      while i < |artwork|
        invariant lo <= i <= |artwork|
        invariant forall k :: lo <= k < i ==> prefix <= artwork[k].name
        invariant files == Classified(artwork[lo..i], |prefix|)
        invariant refs == ArtworkRefs(files, start)
        invariant Numbering() && stored == old(stored) + ArtInfos(files)
      {
        if !(prefix <= artwork[i].name) {
          break;
        }
        NextClassified(artwork[lo..i], artwork[i], |prefix|);
        assert artwork[lo..i + 1] == artwork[lo..i] + [artwork[i]];
        var artType := ClassifyArtwork(artwork[i].name[|prefix|..]);
        if artType.Some? {
          var id := StoreResource(artwork[i].info);
          refs := refs + [Artwork(ResourceKey(id), artType.value)];
          NextArtFile(files, ArtFile(artwork[i].info, artType.value), start);
          files := files + [ArtFile(artwork[i].info, artType.value)];
        }
        i := i + 1;
      }
      PrefixBlock(artwork, prefix, i);
    }
  }

  lemma Regroup<T>(a: seq<T>, b: seq<T>, c: seq<T>, d: seq<T>)
    ensures a + b + c + d == a + (b + c + d)
  {
  }

  class MovieScanner {
    const store: StoreService
    var moviesFolder: int
    var nextResourceId: int
    var nextObjectId: int

    constructor (store: StoreService)
      ensures this.store == store && moviesFolder == -1
    {
      this.store := store;
      moviesFolder, nextResourceId, nextObjectId := -1, -1, -1;
    }

    ghost predicate Valid()
      reads this, store, store.db
    {
      store.Valid()
    }

    ghost function DiskWith(raised: Option<StoreError>): Disk
      requires Valid()
      reads this, store, store.db
    {
      store.State().(raised := raised)
    }

    method NextResourceKey() returns (id: int)
      modifies this`nextResourceId
      ensures id == old(nextResourceId) && nextResourceId == id + 1
    {
      id := nextResourceId;
      nextResourceId := nextResourceId + 1;
    }

    method NextObjectKey() returns (id: int)
      modifies this`nextObjectId
      ensures id == old(nextObjectId) && nextObjectId == id + 1
    {
      id := nextObjectId;
      nextObjectId := nextObjectId + 1;
    }

    method SerializeResource(info: FileInfo) returns (r: StoredResource)
      modifies this`nextResourceId
      ensures nextResourceId == old(nextResourceId) + 1
      ensures r == StoredResource(old(nextResourceId), ToResource(info))
    {
      var key := NextResourceKey();
      r := StoredResource(key, ToResource(info));
    }

    method CreateContainer(path: string, art: Option<ArtFile>, parent: int)
      returns (r: Result<int, StoreError>)
      requires Valid()
      modifies this`nextObjectId, this`nextResourceId, store.db
      ensures Valid() && store.db == old(store.db)
      ensures var batch := CollectionBatch(path, art, parent, old(nextObjectId), old(nextResourceId));
              && DiskWith(if r.Err? then Some(r.error) else None) == Commit(batch, old(store.State()))
              && nextResourceId == old(nextResourceId) + |batch.resources|
      ensures nextObjectId == old(nextObjectId) + 1
      ensures r.Ok? ==> r.value == old(nextObjectId)
    {
      var id := NextObjectKey();
      var artwork: seq<Artwork> := [];
      var resources: seq<StoredResource> := [];
      if art.Some? {
        var resource := SerializeResource(art.value.info);
        resources := [resource];
        artwork := [Artwork(ResourceKey(resource.key), art.value.artType)];
      }
      var meta := ContainerMeta(id, parent, Stem(FileName(path)), ContainerClass, artwork);
      var raised := store.PutItems(parent, [SerializeContainer([], meta)], resources);
      assert Batch(parent, [SerializeContainer([], meta)], resources)
        == CollectionBatch(path, art, parent, old(nextObjectId), old(nextResourceId));
      r := if raised.Some? then Err(raised.value) else Ok(id);
    }

    method GetMoviesFolderId() returns (r: Result<int, StoreError>)
      requires Valid()
      modifies this`moviesFolder, this`nextObjectId, store.db
      ensures Valid() && store.db == old(store.db)
      ensures FolderSearch(DiskWith(if r.Err? then Some(r.error) else None), moviesFolder, nextObjectId)
              == MoviesFolderOf(old(store.State()), old(moviesFolder), old(nextObjectId))
      ensures r.Ok? ==> r.value == moviesFolder
    {
      if moviesFolder > 0 {
        return Ok(moviesFolder);
      }
      var listing := store.List(ROOT_ID);
      if listing.Err? {
        return Err(listing.error);
      }
      var view := listing.value;
      var cursor := new Cursor(view);
      ghost var contents := store.db.Contents();
      while cursor.keyIndex < |view.objects|
        invariant 0 <= cursor.keyIndex <= |view.objects|
        invariant cursor.view == view && fresh(cursor) && fresh(view.dbIt)
        invariant Valid() && store.db == old(store.db) && unchanged(store.db) && unchanged(this)
        invariant FindMovies(contents) == FindByTitle(contents, view.objects[cursor.keyIndex..])
        decreases |view.objects| - cursor.keyIndex
      {
        var element := cursor.Read();
        if element.Err? {
          return Err(element.error);
        }
        if element.value.dcTitle == "Movies" {
          moviesFolder := element.value.id;
          return Ok(moviesFolder);
        }
        cursor.Next();
      }
      var id := NextObjectKey();
      var raised := store.PutItems(ROOT_ID, [MoviesFolder(id, ROOT_ID)], []);
      assert raised.None?;  // the root was read above
      moviesFolder := id;
      return Ok(id);
    }

    // Reads one directory and writes its batches; what is left to do are its
    // subdirectories, each with the parent it was assigned.
    method ScanDirectory(path: string, entries: seq<FsEntry>, config: LibraryConfig, parent: int)
      returns (r: Result<seq<Pending>, StoreError>, ghost own: FolderPlan)
      requires Valid()
      modifies this`nextObjectId, this`nextResourceId, store.db
      ensures Valid() && store.db == old(store.db)
      ensures own == PlanFolder(path, entries, config, parent, old(nextObjectId), old(nextResourceId))
      ensures DiskWith(if r.Err? then Some(r.error) else None) == Execute(own.batches, old(store.State()))
      ensures r.Ok? ==>
        && r.value == Subdirectories(path, entries, own.childParent)
        && nextObjectId == old(nextObjectId) + |Items(own.batches)|
        && nextResourceId == old(nextResourceId) + |Resources(own.batches)|
    {
      var directories: seq<Pending> := [];
      var videos: seq<NamedFile> := [];
      var composer := new ObjectComposer(this, parent);

      for i := 0 to |entries|
        invariant fresh(composer) && composer.context == this && composer.parentId == parent
        invariant composer.folderName == "" && composer.resources == []
        invariant directories == Subdirectories(path, entries[..i], parent)
        invariant videos == Collect(path, entries[..i], VideoFile)
        invariant composer.artwork == Collect(path, entries[..i], ImageFile)
        invariant composer.subtitles == Collect(path, entries[..i], TextFile)
        invariant unchanged(this) && unchanged(store.db)
      {
        var entry := entries[i];
        assert entries[..i + 1][..i] == entries[..i];
        if entry.Directory? {
          directories := directories + [Pending(Join(path, entry.name), entry.entries, parent)];
          continue;
        } else if !entry.RegularFile? {
          continue;
        }
        var mimeType := GetMimeType(entry.name);
        if mimeType.None? {
          continue;
        }
        if HasMediaKind(mimeType.value, VideoFile) {
          videos := Emplace(videos, FileOf(path, entry.name));
        } else if HasMediaKind(mimeType.value, ImageFile) {
          composer.AddArtwork(FileOf(path, entry.name));
        } else if HasMediaKind(mimeType.value, TextFile) {
          composer.AddSubtitles(FileOf(path, entry.name));
        }
      }
      assert entries[..|entries|] == entries;
      r, own := PutDirectory(path, entries, config, parent, directories, videos, composer);
    }

    // The second half of reading a directory: its collection and its items.
    method PutDirectory(path: string, entries: seq<FsEntry>, config: LibraryConfig, parent: int,
                        found: seq<Pending>, videos: seq<NamedFile>, composer: ObjectComposer)
      returns (r: Result<seq<Pending>, StoreError>, ghost own: FolderPlan)
      requires Valid()
      requires composer.context == this && composer.parentId == parent
      requires composer.folderName == "" && composer.resources == []
      requires found == Subdirectories(path, entries, parent)
      requires videos == Collect(path, entries, VideoFile)
      requires composer.artwork == Collect(path, entries, ImageFile)
      requires composer.subtitles == Collect(path, entries, TextFile)
      modifies this`nextObjectId, this`nextResourceId, store.db, composer
      ensures Valid() && store.db == old(store.db)
      ensures own == PlanFolder(path, entries, config, parent, old(nextObjectId), old(nextResourceId))
      ensures DiskWith(if r.Err? then Some(r.error) else None) == Execute(own.batches, old(store.State()))
      ensures r.Ok? ==>
        && r.value == Subdirectories(path, entries, own.childParent)
        && nextObjectId == old(nextObjectId) + |Items(own.batches)|
        && nextResourceId == old(nextResourceId) + |Resources(own.batches)|
    {
      hide PlanFolder, PlanCollection, PlanItems, Execute, Commit, Collect, Subdirectories, Items, Resources, AsMap;
      ghost var no, nr, start := nextObjectId, nextResourceId, store.State();
      ghost var first := PlanCollection(path, entries, config, parent, no, nr);
      ghost var second := PlanItems(path, entries, config, first.itemParent,
                                    no + |Items(first.batches)|, nr + |Resources(first.batches)|);
      own := PlanFolder(path, entries, config, parent, no, nr);
      PlanFolderParts(path, entries, config, parent, no, nr);
      ExecuteAppend(first.batches, second, start);
      ItemsAppend(first.batches, second);
      var directories := PutCollection(path, entries, config, parent, found, videos, composer);
      if directories.Err? {
        ExecuteRaised(second, DiskWith(Some(directories.error)));
        return directories, own;
      }
      var raised := PutVideos(path, entries, config, videos, composer);
      r := if raised.Some? then Err(raised.value) else directories;
    }

    // Makes the directory a collection when it is one.
    method PutCollection(path: string, entries: seq<FsEntry>, config: LibraryConfig, parent: int,
                         found: seq<Pending>, videos: seq<NamedFile>, composer: ObjectComposer)
      returns (r: Result<seq<Pending>, StoreError>)
      requires Valid()
      requires composer.parentId == parent
      requires found == Subdirectories(path, entries, parent)
      requires videos == Collect(path, entries, VideoFile)
      requires composer.artwork == Collect(path, entries, ImageFile)
      modifies this`nextObjectId, this`nextResourceId, store.db, composer`parentId
      ensures Valid() && store.db == old(store.db)
      ensures var first := PlanCollection(path, entries, config, parent, old(nextObjectId), old(nextResourceId));
              && DiskWith(if r.Err? then Some(r.error) else None) == Execute(first.batches, old(store.State()))
              && (r.Ok? ==>
                    && r.value == Subdirectories(path, entries, first.childParent)
                    && composer.parentId == first.itemParent
                    && nextObjectId == old(nextObjectId) + |Items(first.batches)|
                    && nextResourceId == old(nextResourceId) + |Resources(first.batches)|)
    {
      hide PlanCollection, Execute, Commit, Collect, Subdirectories, Items, Resources, FolderArtwork,
        CollectionBatch, AsMap,
        HasSubdirectory, Reparented;
      var directories := found;
      var addCollection := false;
      var art := composer.GetFolderArtwork();
      if config.useCollections {
        addCollection :=
          if |videos| == 1 then false
          else if |videos| > 1 then true
          else art.Some? && directories != [];
      }
      SubdirectoriesFound(path, entries, parent);
      PlanCollectionIs(path, entries, config, parent, nextObjectId, nextResourceId);
      if addCollection {
        ghost var batch := CollectionBatch(path, art, parent, nextObjectId, nextResourceId);
        ExecuteOne(batch, store.State());
        OneBatch(batch);
        CollectionHasOneItem(path, art, parent, nextObjectId, nextResourceId);
        var collection := CreateContainer(path, art, parent);
        if collection.Err? {
          return Err(collection.error);
        }
        composer.parentId := collection.value;
        if art.Some? {
          directories := Reparent(directories, collection.value);
          ReparentedSubdirectories(path, entries, parent, collection.value);
        }
      } else {
        ExecuteNone(store.State());
      }
      return Ok(directories);
    }

    // Puts the items of a directory under their parent.
    method PutVideos(path: string, entries: seq<FsEntry>, config: LibraryConfig,
                     videos: seq<NamedFile>, composer: ObjectComposer)
      returns (raised: Option<StoreError>)
      requires Valid()
      requires composer.context == this
      requires composer.folderName == "" && composer.resources == []
      requires videos == Collect(path, entries, VideoFile)
      requires composer.artwork == Collect(path, entries, ImageFile)
      requires composer.subtitles == Collect(path, entries, TextFile)
      modifies this`nextObjectId, this`nextResourceId, store.db, composer
      ensures Valid() && store.db == old(store.db)
      ensures var second := PlanItems(path, entries, config, old(composer.parentId),
                                      old(nextObjectId), old(nextResourceId));
              && DiskWith(raised) == Execute(second, old(store.State()))
              && nextObjectId == old(nextObjectId) + |Items(second)|
              && nextResourceId == old(nextResourceId) + |Resources(second)|
    {
      hide PlanItems, Execute, Commit, Collect, Items, Resources, ComposeAll, ItemsBatch, AsMap, Stem,
        FileName, Ascending,
        FolderNameFor;
      PlanItemsIs(path, entries, config, composer.parentId, nextObjectId, nextResourceId);
      if config.useFolderNames && |videos| == 1 {
        composer.folderName := Stem(FileName(path));
      }
      FolderNameIs(config, path, |videos|);
      if |videos| == 0 {
        ExecuteNone(store.State());
        return None;
      }
      CollectAscending(path, entries, ImageFile);
      CollectAscending(path, entries, TextFile);
      ghost var folder := composer.Folder();
      ghost var batch := ItemsBatch(folder, videos, nextObjectId, nextResourceId);
      ItemsBatchIs(folder, videos, nextObjectId, nextResourceId);
      OneBatch(batch);
      ExecuteOne(batch, store.State());
      var items := ComposeItems(composer, videos);
      raised := store.PutItems(composer.parentId, items, composer.resources);
    }

    static method Reparent(directories: seq<Pending>, parent: int) returns (r: seq<Pending>)
      ensures r == Reparented(directories, parent)
    {
      r := directories;
      for i := 0 to |directories|
        invariant |r| == |directories|
        invariant forall k :: 0 <= k < |r| ==>
          r[k] == if k < i then directories[k].(parent := parent) else directories[k]
      {
        r := r[i := r[i].(parent := parent)];
      }
    }

    method ComposeItems(composer: ObjectComposer, videos: seq<NamedFile>) returns (items: seq<MediaObject>)
      requires composer.context == this && composer.resources == []
      requires composer.SortedMaps()
      modifies this`nextObjectId, this`nextResourceId, composer`resources, composer`stored, composer`first
      ensures var composed := ComposeAll(composer.Folder(), videos, old(nextObjectId), old(nextResourceId));
              && items == composed.items && composer.resources == Numbered(composed.files, old(nextResourceId))
      ensures nextObjectId == old(nextObjectId) + |items|
      ensures nextResourceId == old(nextResourceId) + |composer.resources|
    {
      hide Item, ItemFiles, Ascending;
      items := [];
      composer.stored, composer.first := [], nextResourceId;
      ghost var folder := composer.Folder();
      ghost var no, nr := nextObjectId, nextResourceId;
      for i := 0 to |videos|
        invariant composer.Folder() == folder && composer.SortedMaps()
        invariant composer.Numbering() && composer.first == nr
        invariant Composed(items, composer.stored) == ComposeAll(folder, videos[..i], no, nr)
        invariant nextObjectId == no + i
      {
        ComposeAllNext(folder, videos, i, no, nr);
        var item := composer.Compose(videos[i]);
        items := items + [item];
      }
      assert videos[..|videos|] == videos;
    }

    // Scans a whole tree into the movies folder.
    method ScanAll(path: string, entries: seq<FsEntry>, config: LibraryConfig) returns (raised: Option<StoreError>)
      requires Valid()
      requires IdsBelowMaximum(store.db.Contents())
      modifies this, store.db
      ensures Valid() && store.db == old(store.db)
      ensures ScanResult(DiskWith(raised), moviesFolder)
              == Scan(old(store.State()), old(moviesFolder), path, entries, config)
    {
      hide PlanFolder, Planner, WalkTree, Execute, Commit, AsMap, NextId, MoviesFolderOf;
      NoMaximumKeys(store.db.Contents());
      nextResourceId := store.GetNextId(ResourceKind);
      nextObjectId := store.GetNextId(ObjectKind);
      var movies := GetMoviesFolderId();
      if movies.Err? {
        ExecuteRaised(ScanBatches(path, entries, config, moviesFolder, nextObjectId, nextResourceId).batches,
                      DiskWith(Some(movies.error)));
        return Some(movies.error);
      }
      raised := ScanTree(path, entries, config, movies.value);
    }

    // The stack loop of a scan.
    method ScanTree(path: string, entries: seq<FsEntry>, config: LibraryConfig, parent: int)
      returns (raised: Option<StoreError>)
      requires Valid()
      modifies this`nextObjectId, this`nextResourceId, store.db
      ensures Valid() && store.db == old(store.db)
      ensures DiskWith(raised)
              == Execute(ScanBatches(path, entries, config, parent, old(nextObjectId), old(nextResourceId)).batches,
                         old(store.State()))
    {
      ghost var plan := Planner(config);
      ghost var start := store.State();
      ghost var done := Progress([], nextObjectId, nextResourceId);
      ghost var all := ScanBatches(path, entries, config, parent, nextObjectId, nextResourceId);
      StackIsTree(plan, path, entries, false, config.useCollections, parent, done);
      ExecuteNone(start);
      assert all == WalkTree(plan, path, entries, false, config.useCollections, parent, done);
      hide PlanFolder, Planner, WalkTree, WalkStack, Execute, Commit, Subdirectories, Items, Resources,
        AsMap, StackSize;

      var directories := [Pending(path, entries, parent)];
      var current := config.(useCollections := false);
      while directories != []
        invariant Valid() && store.db == old(store.db)
        invariant current == config.(useCollections := current.useCollections)
        invariant all == WalkStack(plan, directories, current.useCollections, config.useCollections, done)
        invariant done.nextObject == nextObjectId && done.nextResource == nextResourceId
        invariant Execute(done.batches, start) == DiskWith(None)
        decreases StackSize(directories)
      {
        var next;
        next, done := ScanTop(directories, current, config, done, start);
        if next.Err? {
          return Some(next.error);
        }
        directories := next.value;
        current := config;
      }
      return None;
    }

    // One turn of the loop: the directory on top of the stack makes way for
    // its subdirectories.
    method ScanTop(directories: seq<Pending>, current: LibraryConfig, config: LibraryConfig,
                   ghost done: Progress, ghost start: Disk)
      returns (r: Result<seq<Pending>, StoreError>, ghost after: Progress)
      requires Valid() && directories != []
      requires current == config.(useCollections := current.useCollections)
      requires done.nextObject == nextObjectId && done.nextResource == nextResourceId
      requires Execute(done.batches, start) == store.State()
      modifies this`nextObjectId, this`nextResourceId, store.db
      ensures Valid() && store.db == old(store.db)
      ensures var all := WalkStack(Planner(config), directories, current.useCollections, config.useCollections, done);
              if r.Err? then DiskWith(Some(r.error)) == Execute(all.batches, start)
              else
                && all == WalkStack(Planner(config), r.value, config.useCollections, config.useCollections, after)
                && StackSize(r.value) < StackSize(directories)
                && after.nextObject == nextObjectId && after.nextResource == nextResourceId
                && Execute(after.batches, start) == store.State()
    {
      hide PlanFolder, Planner, WalkTree, WalkStack, Execute, Commit, Subdirectories, Items, Resources,
        AsMap, StackSize;
      var top := directories[|directories| - 1];
      ghost var plan := Planner(config);
      PlannerIs(config, current.useCollections, top.path, top.entries, top.parent, nextObjectId, nextResourceId);
      var subdirectories;
      ghost var own;
      subdirectories, own := ScanDirectory(top.path, top.entries, current, top.parent);
      after := done.Then(own.batches);
      LoopStep(plan, directories, current.useCollections, config.useCollections, done, own, start);
      if subdirectories.Err? {
        return subdirectories, after;
      }
      r := Ok(directories[..|directories| - 1] + subdirectories.value);
    }
  }

  // ----- What the code's contracts unfold to -----

  // One turn of the stack loop, with its effect on the database.
  lemma LoopStep(plan: FolderPlanner, stack: seq<Pending>, collections: bool, below: bool,
                 done: Progress, own: FolderPlan, start: Disk)
    requires stack != []
    requires var top := stack[|stack| - 1];
             own == plan(top.path, top.entries, collections, top.parent, done.nextObject, done.nextResource)
    ensures
      var top := stack[|stack| - 1];
      var next := stack[..|stack| - 1] + Subdirectories(top.path, top.entries, own.childParent);
      var all := WalkStack(plan, stack, collections, below, done);
      var after := Execute(own.batches, Execute(done.batches, start));
      && all == WalkStack(plan, next, below, below, done.Then(own.batches))
      && StackSize(next) < StackSize(stack)
      && Execute(done.Then(own.batches).batches, start) == after
      && (after.raised.Some? ==> Execute(all.batches, start) == after)
  {
    hide WalkStack, Execute, StackSize, Subdirectories;
    var top := stack[|stack| - 1];
    var next := stack[..|stack| - 1] + Subdirectories(top.path, top.entries, own.childParent);
    var all := WalkStack(plan, stack, collections, below, done);
    StackStep(plan, stack, collections, below, done);
    ExecuteAppend(done.batches, own.batches, start);
    WalkStackExtends(plan, next, below, below, done.Then(own.batches));
    if Execute(own.batches, Execute(done.batches, start)).raised.Some? {
      RaisedEarly(done.batches + own.batches, all.batches, start);
    }
  }

  lemma PlanCollectionIs(path: string, entries: seq<FsEntry>, config: LibraryConfig,
                         parent: int, nextObject: int, nextResource: int)
    ensures
      var videos := |Collect(path, entries, VideoFile)|;
      var art := FolderArtwork(Collect(path, entries, ImageFile));
      PlanCollection(path, entries, config, parent, nextObject, nextResource) ==
        if config.useCollections && videos != 1 && (videos > 1 || (art.Some? && HasSubdirectory(entries))) then
          CollectionPlan([CollectionBatch(path, art, parent, nextObject, nextResource)], nextObject,
                         if art.Some? then nextObject else parent)
        else CollectionPlan([], parent, parent)
  {
    hide Collect, FolderArtwork, HasSubdirectory, CollectionBatch;
  }

  lemma CollectionHasOneItem(path: string, art: Option<ArtFile>, parent: int, nextObject: int, nextResource: int)
    ensures |CollectionBatch(path, art, parent, nextObject, nextResource).items| == 1
  {
  }

  lemma OwnArtworkIs(artwork: seq<NamedFile>, prefix: string)
    ensures forall f :: f in Matching(artwork, prefix) ==> |prefix| <= |f.name|
    ensures OwnArtwork(artwork, prefix) == Classified(Matching(artwork, prefix), |prefix|)
    ensures Classified([], |prefix|) == []
  {
    hide Matching;
    MatchingHavePrefix(artwork, prefix);
  }

  lemma PlanItemsIs(path: string, entries: seq<FsEntry>, config: LibraryConfig,
                    parent: int, nextObject: int, nextResource: int)
    ensures
      var videos := Collect(path, entries, VideoFile);
      var context := FolderContext(FolderNameFor(config, path, |videos|), Collect(path, entries, ImageFile),
                                   Collect(path, entries, TextFile), parent);
      PlanItems(path, entries, config, parent, nextObject, nextResource)
      == if |videos| == 0 then [] else [ItemsBatch(context, videos, nextObject, nextResource)]
  {
    hide Collect, ItemsBatch, FolderNameFor;
  }

  lemma FolderNameIs(config: LibraryConfig, path: string, videos: nat)
    ensures FolderNameFor(config, path, videos)
            == if config.useFolderNames && videos == 1 then Stem(FileName(path)) else ""
  {
  }

  lemma ItemsBatchIs(context: FolderContext, videos: seq<NamedFile>, nextObject: int, nextResource: int)
    ensures var composed := ComposeAll(context, videos, nextObject, nextResource);
            ItemsBatch(context, videos, nextObject, nextResource)
            == Batch(context.parent, composed.items, Numbered(composed.files, nextResource))
  {
    hide ComposeAll;
  }

  lemma OneBatch(batch: Batch)
    ensures Items([batch]) == batch.items && Resources([batch]) == batch.resources
    ensures Items([]) == [] && Resources([]) == []
  {
    assert [batch][1..] == [];
  }

  lemma ExecuteNone(disk: Disk)
    ensures Execute([], disk) == disk
    ensures Items([]) == [] && Resources([]) == []
  {
  }

  lemma ExecuteRaised(batches: seq<Batch>, disk: Disk)
    requires disk.raised.Some?
    ensures Execute(batches, disk) == disk
  {
  }

  lemma PlannerIs(config: LibraryConfig, collections: bool, path: string, entries: seq<FsEntry>,
                  parent: int, nextObject: int, nextResource: int)
    ensures Planner(config)(path, entries, collections, parent, nextObject, nextResource)
            == PlanFolder(path, entries, config.(useCollections := collections), parent, nextObject, nextResource)
  {
    hide PlanFolder;
  }

  ghost predicate IdsBelowMaximum(store: Store) {
    forall k :: k in store && k != NoKey ==> k.id < INT64_MAX
  }

  lemma NoMaximumKeys(store: Store)
    requires IdsBelowMaximum(store)
    ensures forall kind :: Int64Ids(store, kind) && KeyOf(kind, INT64_MAX) !in store
  {
  }

  function Reparented(directories: seq<Pending>, parent: int): (r: seq<Pending>)
    ensures |r| == |directories|
    ensures forall i :: 0 <= i < |r| ==> r[i] == directories[i].(parent := parent)
  {
    seq(|directories|, i requires 0 <= i < |directories| => directories[i].(parent := parent))
  }

  lemma {:induction false} ReparentedSubdirectories(path: string, entries: seq<FsEntry>, parent: int, other: int)
    ensures Reparented(Subdirectories(path, entries, parent), other) == Subdirectories(path, entries, other)
  {
    if entries != [] {
      ReparentedSubdirectories(path, entries[..|entries| - 1], parent, other);
    }
  }

  lemma {:induction false} SubdirectoriesFound(path: string, entries: seq<FsEntry>, parent: int)
    ensures Subdirectories(path, entries, parent) != [] <==> HasSubdirectory(entries)
  {
    if entries != [] {
      var front := entries[..|entries| - 1];
      SubdirectoriesFound(path, front, parent);
      if HasSubdirectory(front) {
        var i :| 0 <= i < |front| && front[i].Directory?;
        assert entries[i].Directory?;
      }
      if HasSubdirectory(entries) && !entries[|entries| - 1].Directory? {
        var i :| 0 <= i < |entries| && entries[i].Directory?;
        assert front[i].Directory?;
      }
    }
  }
}
