// What a scan writes: every object and resource, grouped in the batches of
// each directory, as a function of the directory and the two id counters.
module ScanPlan {
  import opened Wrappers
  import opened Text
  import opened Titles
  import opened Calendar
  import opened Keys
  import opened Records
  import opened StoreModel
  import opened Folders
  import opened ScanWalk

  datatype LibraryConfig = LibraryConfig(useFolderNames: bool, useCollections: bool)

  datatype ArtFile = ArtFile(info: FileInfo, artType: ArtworkType)

  // ----- Files of one item -----

  function ClassifyArtwork(name: string): Option<ArtworkType> {
    if Contains(name, "poster") then Some(Poster)
    else if Contains(name, "thumb") then Some(Thumbnail)
    else None
  }

  function FindFile(files: seq<NamedFile>, name: string): Option<FileInfo> {
    if files == [] then None
    else if files[0].name == name then Some(files[0].info)
    else FindFile(files[1..], name)
  }

  function FolderArtwork(artwork: seq<NamedFile>): Option<ArtFile> {
    match FindFile(artwork, "poster.jpg")
    case Some(info) => Some(ArtFile(info, Poster))
    case None =>
      match FindFile(artwork, "folder.jpg")
      case Some(info) => Some(ArtFile(info, Thumbnail))
      case None => None
  }

  // The files whose name, past the prefix, says what artwork they are.
  function Classified(files: seq<NamedFile>, prefix: nat): seq<ArtFile>
    requires forall f :: f in files ==> prefix <= |f.name|
  {
    if files == [] then []
    else
      var last := files[|files| - 1];
      Classified(files[..|files| - 1], prefix) +
      match ClassifyArtwork(last.name[prefix..])
      case Some(artType) => [ArtFile(last.info, artType)]
      case None => []
  }

  lemma {:induction false} MatchingHavePrefix(files: seq<NamedFile>, prefix: string)
    ensures forall f :: f in Matching(files, prefix) ==> prefix <= f.name && f in files
  {
    if files != [] {
      MatchingHavePrefix(files[1..], prefix);
    }
  }

  // A named folder stands for its one video, so every file in it matches.
  function ResourcePrefix(folderName: string, videoName: string): string {
    if folderName == "" then Stem(videoName) else ""
  }

  function OwnArtwork(artwork: seq<NamedFile>, prefix: string): seq<ArtFile> {
    MatchingHavePrefix(artwork, prefix);
    Classified(Matching(artwork, prefix), |prefix|)
  }

  // Artwork of the item itself or, when there is none, of its folder.
  function ItemArtwork(artwork: seq<NamedFile>, prefix: string): seq<ArtFile> {
    var own := OwnArtwork(artwork, prefix);
    if own == [] && FolderArtwork(artwork).Some? then [FolderArtwork(artwork).value] else own
  }

  function Infos(files: seq<NamedFile>): (infos: seq<FileInfo>)
    ensures |infos| == |files|
  {
    if files == [] then [] else Infos(files[..|files| - 1]) + [files[|files| - 1].info]
  }

  function ArtInfos(art: seq<ArtFile>): (infos: seq<FileInfo>)
    ensures |infos| == |art|
  {
    if art == [] then [] else ArtInfos(art[..|art| - 1]) + [art[|art| - 1].info]
  }

  // What the items of one folder have in common.
  datatype FolderContext = FolderContext(
    folderName: string,
    artwork: seq<NamedFile>,
    subtitles: seq<NamedFile>,
    parent: int)

  function ItemSubtitles(context: FolderContext, video: NamedFile): seq<NamedFile> {
    Matching(context.subtitles, ResourcePrefix(context.folderName, video.name))
  }

  function ArtOf(context: FolderContext, video: NamedFile): seq<ArtFile> {
    ItemArtwork(context.artwork, ResourcePrefix(context.folderName, video.name))
  }

  // The files an item refers to, in the order their resources are numbered.
  function ItemFiles(context: FolderContext, video: NamedFile): seq<FileInfo> {
    [video.info] + ArtInfos(ArtOf(context, video)) + Infos(ItemSubtitles(context, video))
  }

  // ----- Records -----

  lemma {:induction false} NumberedAppend(a: seq<FileInfo>, b: seq<FileInfo>, first: int)
    ensures Numbered(a + b, first) == Numbered(a, first) + Numbered(b, first + |a|)
  {
    if b == [] {
      assert a + b == a;
    } else {
      assert (a + b)[..|a + b| - 1] == a + b[..|b| - 1];
      NumberedAppend(a, b[..|b| - 1], first);
    }
  }

  // What one more file adds to the lists built so far.
  lemma NextFile(files: seq<NamedFile>, file: NamedFile, first: int)
    ensures RefsTo(files + [file], first) == RefsTo(files, first) + [RefTo(first + |files|, file.info)]
    ensures Infos(files + [file]) == Infos(files) + [file.info]
  {
    assert (files + [file])[..|files|] == files;
  }

  lemma NextArtFile(art: seq<ArtFile>, file: ArtFile, first: int)
    ensures ArtworkRefs(art + [file], first)
            == ArtworkRefs(art, first) + [Artwork(ResourceKey(first + |art|), file.artType)]
    ensures ArtInfos(art + [file]) == ArtInfos(art) + [file.info]
  {
    assert (art + [file])[..|art|] == art;
  }

  lemma NextNumbered(files: seq<FileInfo>, file: FileInfo, first: int)
    ensures Numbered(files + [file], first)
            == Numbered(files, first) + [StoredResource(first + |files|, ToResource(file))]
  {
    assert (files + [file])[..|files|] == files;
  }

  lemma NextClassified(files: seq<NamedFile>, file: NamedFile, prefix: nat)
    requires forall f :: f in files + [file] ==> prefix <= |f.name|
    ensures Classified(files + [file], prefix) == Classified(files, prefix) +
              match ClassifyArtwork(file.name[prefix..])
              case Some(artType) => [ArtFile(file.info, artType)]
              case None => []
  {
    assert (files + [file])[..|files|] == files;
  }

  function ToResource(info: FileInfo): Resource {
    Resource(info.path, info.mimeType)
  }

  function Numbered(files: seq<FileInfo>, first: int): (resources: seq<StoredResource>)
    ensures |resources| == |files|
  {
    if files == [] then []
    else
      var n := |files| - 1;
      Numbered(files[..n], first) + [StoredResource(first + n, ToResource(files[n]))]
  }

  function RefTo(id: int, info: FileInfo): ResourceRef {
    ResourceRef(ResourceKey(id), HttpGet(info.mimeType))
  }

  function RefsTo(files: seq<NamedFile>, first: int): (refs: seq<ResourceRef>)
    ensures |refs| == |files|
  {
    if files == [] then []
    else
      var n := |files| - 1;
      RefsTo(files[..n], first) + [RefTo(first + n, files[n].info)]
  }

  function ArtworkRefs(art: seq<ArtFile>, first: int): (refs: seq<Artwork>)
    ensures |refs| == |art|
  {
    if art == [] then []
    else
      var n := |art| - 1;
      ArtworkRefs(art[..n], first) + [Artwork(ResourceKey(first + n), art[n].artType)]
  }

  function OfType(refs: seq<Artwork>, artType: ArtworkType): seq<Artwork> {
    if refs == [] then []
    else OfType(refs[..|refs| - 1], artType) +
         if refs[|refs| - 1].artType == artType then [refs[|refs| - 1]] else []
  }

  // Stable sort by the artwork type, which is the table's key.
  function SortedByType(refs: seq<Artwork>): seq<Artwork> {
    OfType(refs, Poster) + OfType(refs, Thumbnail)
  }

  function DateOf(year: int): int {
    if year == 0 then 0 else DaysFromCivil(Date(year, 1, 1))
  }

  // The title and year in the name of a video or of the folder that stands for it.
  function TitleOf(context: FolderContext, video: NamedFile): Title {
    NormalizedTitle(
      if context.folderName == "" then ResourcePrefix(context.folderName, video.name) else context.folderName)
  }

  function Item(context: FolderContext, video: NamedFile, id: int, firstResource: int): MediaObject {
    var art := ArtOf(context, video);
    var title := TitleOf(context, video);
    MediaObject(
      id,
      context.parent,
      title.text,
      MovieClass,
      SortedByType(ArtworkRefs(art, firstResource + 1)),
      DateOf(title.year),
      MediaItem([RefTo(firstResource, video.info)]
                + RefsTo(ItemSubtitles(context, video), firstResource + 1 + |art|)))
  }

  // The record of an item, once its title and date are known.
  lemma ItemIs(context: FolderContext, video: NamedFile, id: int, firstResource: int, title: Title)
    requires title == TitleOf(context, video)
    ensures
      var prefix := ResourcePrefix(context.folderName, video.name);
      var art := ItemArtwork(context.artwork, prefix);
      Item(context, video, id, firstResource) ==
        MediaObject(id, context.parent, title.text, MovieClass,
                    SortedByType(ArtworkRefs(art, firstResource + 1)), DateOf(title.year),
                    MediaItem([RefTo(firstResource, video.info)]
                              + RefsTo(Matching(context.subtitles, prefix), firstResource + 1 + |art|)))
  {
    hide NormalizedTitle, DateOf, SortedByType, ItemArtwork, Matching, RefsTo, ArtworkRefs;
  }

  // The items of a folder and the files they use, in numbering order.
  datatype Composed = Composed(items: seq<MediaObject>, files: seq<FileInfo>)

  function ComposeAll(context: FolderContext, videos: seq<NamedFile>, nextObject: int, nextResource: int): (r: Composed)
    ensures |r.items| == |videos|
  {
    if videos == [] then Composed([], [])
    else
      var n := |videos| - 1;
      var before := ComposeAll(context, videos[..n], nextObject, nextResource);
      Composed(
        before.items + [Item(context, videos[n], nextObject + n, nextResource + |before.files|)],
        before.files + ItemFiles(context, videos[n]))
  }

  lemma ComposeAllNext(context: FolderContext, videos: seq<NamedFile>, i: nat, nextObject: int, nextResource: int)
    requires i < |videos|
    ensures
      var before := ComposeAll(context, videos[..i], nextObject, nextResource);
      ComposeAll(context, videos[..i + 1], nextObject, nextResource)
      == Composed(before.items + [Item(context, videos[i], nextObject + i, nextResource + |before.files|)],
                  before.files + ItemFiles(context, videos[i]))
  {
    hide Item, ItemFiles;
    assert videos[..i + 1][..i] == videos[..i];
  }

  function Collection(id: int, name: string, art: Option<ArtFile>, parent: int, resource: int): MediaObject {
    SerializeContainer(
      [],
      ContainerMeta(id, parent, name, ContainerClass,
                    if art.Some? then [Artwork(ResourceKey(resource), art.value.artType)] else []))
  }

  function MoviesFolder(id: int, parent: int): MediaObject {
    MediaObject(id, parent, "Movies", ContainerClass, [], 0, MediaContainer([]))
  }

  // ----- One folder -----

  predicate MakesCollection(config: LibraryConfig, videos: nat, art: Option<ArtFile>, hasDirectories: bool) {
    config.useCollections && (videos > 1 || (videos == 0 && art.Some? && hasDirectories))
  }

  function CollectionBatch(path: string, art: Option<ArtFile>, parent: int, nextObject: int, nextResource: int): Batch {
    Batch(
      parent,
      [Collection(nextObject, Stem(FileName(path)), art, parent, nextResource)],
      if art.Some? then Numbered([art.value.info], nextResource) else [])
  }

  function ItemsBatch(context: FolderContext, videos: seq<NamedFile>, nextObject: int, nextResource: int): Batch {
    var composed := ComposeAll(context, videos, nextObject, nextResource);
    Batch(context.parent, composed.items, Numbered(composed.files, nextResource))
  }

  function FolderNameFor(config: LibraryConfig, path: string, videos: nat): string {
    if config.useFolderNames && videos == 1 then Stem(FileName(path)) else ""
  }

  // The collection of a directory, if it becomes one; the parent of its items
  // and, only when the collection has artwork, of its subdirectories.
  datatype CollectionPlan = CollectionPlan(batches: seq<Batch>, itemParent: int, childParent: int)

  function PlanCollection(path: string, entries: seq<FsEntry>, config: LibraryConfig,
                          parent: int, nextObject: int, nextResource: int): CollectionPlan
  {
    var videos := |Collect(path, entries, VideoFile)|;
    var art := FolderArtwork(Collect(path, entries, ImageFile));
    if MakesCollection(config, videos, art, HasSubdirectory(entries)) then
      CollectionPlan([CollectionBatch(path, art, parent, nextObject, nextResource)], nextObject,
                     if art.Some? then nextObject else parent)
    else CollectionPlan([], parent, parent)
  }

  function ContextOf(path: string, entries: seq<FsEntry>, config: LibraryConfig, parent: int): FolderContext {
    FolderContext(
      FolderNameFor(config, path, |Collect(path, entries, VideoFile)|),
      Collect(path, entries, ImageFile), Collect(path, entries, TextFile), parent)
  }

  function PlanItems(path: string, entries: seq<FsEntry>, config: LibraryConfig,
                     parent: int, nextObject: int, nextResource: int): seq<Batch>
  {
    var videos := Collect(path, entries, VideoFile);
    if videos == [] then []
    else [ItemsBatch(ContextOf(path, entries, config, parent), videos, nextObject, nextResource)]
  }

  // The batches of one directory, and the parent its subdirectories get.
  function PlanFolder(path: string, entries: seq<FsEntry>, config: LibraryConfig,
                      parent: int, nextObject: int, nextResource: int): FolderPlan
  {
    var first := PlanCollection(path, entries, config, parent, nextObject, nextResource);
    var second := PlanItems(path, entries, config, first.itemParent,
                            nextObject + |Items(first.batches)|, nextResource + |Resources(first.batches)|);
    FolderPlan(first.batches + second, first.childParent)
  }

  lemma PlanFolderParts(path: string, entries: seq<FsEntry>, config: LibraryConfig,
                        parent: int, nextObject: int, nextResource: int)
    ensures
      var first := PlanCollection(path, entries, config, parent, nextObject, nextResource);
      var second := PlanItems(path, entries, config, first.itemParent,
                              nextObject + |Items(first.batches)|, nextResource + |Resources(first.batches)|);
      PlanFolder(path, entries, config, parent, nextObject, nextResource)
      == FolderPlan(first.batches + second, first.childParent)
  {
    hide PlanCollection, PlanItems;
  }

  // The plan of a directory under a library configuration, for the walk.
  function Planner(config: LibraryConfig): FolderPlanner {
    (path, entries, collections, parent, nextObject, nextResource) =>
      PlanFolder(path, entries, config.(useCollections := collections), parent, nextObject, nextResource)
  }
}
