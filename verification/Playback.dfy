// From a scanned video to its bytes: the URL that a browse shows for it leads
// through the server to the content service, which serves the video's file.
module Playback {
  import opened Wrappers
  import opened Text
  import opened Titles
  import opened Keys
  import opened Records
  import opened StoreModel
  import opened StoreService
  import opened Folders
  import opened ScanPlan
  import opened MovieScanner
  import opened StoreInvariant
  import opened StoreRuns
  import opened Expected
  import opened ScanVideos
  import opened StoredViews
  import opened ScanSessions
  import opened Server
  import opened Didl
  import opened ContentService

  // What a request gets: the index page, a service, or an error.
  datatype Served =
    | Welcome
    | Upnp(subPath: string)
    | Content(reply: Result<Reply, HttpError>)
    | NotServed

  // The answer to the target of a resource.
  ghost predicate TargetAnswered(served: Served, target: string, contents: Store, rangeHeader: string, head: bool,
                                 files: Files, events: seq<Event>)
  {
    forall id :: 0 <= id <= INT64_MAX && target == "/content/" + FormatInt(id) ==>
      && served.Content?
      && if RequestedRange(rangeHeader).None? then served.reply == Err(RangeNotSatisfiable)
         else if ResourceKey(id) in contents && contents[ResourceKey(id)].ResourceRecord?
                 && UntilNul(contents[ResourceKey(id)].resource.location) in files then
           Answers(served.reply, files[UntilNul(contents[ResourceKey(id)].resource.location)],
                   RequestedRange(rangeHeader).value, head, events)
         else served.reply == Err(NotFound)
  }

  // Sends a request to the service its target names.
  method HandleTarget(target: string, rangeHeader: string, head: bool, store: StoreService, files: Files,
                      events: seq<Event>)
    returns (served: Served)
    requires store.Valid() && FilesFit64(files)
    ensures TargetAnswered(served, target, store.db.Contents(), rangeHeader, head, files, events)
    ensures match RouteOf(target)
            case Index => served == Welcome
            case ToUpnp(subPath) => served == Upnp(subPath)
            case ToContent(_) => served.Content?
            case NoService => served == NotServed
  {
    hide RouteOf, ParseInt64, FormatInt, Answers, RequestedRange, UntilNul;
    forall id | 0 <= id <= INT64_MAX
      ensures RouteOf("/content/" + FormatInt(id)) == ToContent(FormatInt(id))
      ensures ParseInt64(FormatInt(id)) == Some(id)
    {
      ContentRoute(id);
    }
    var route := Dispatch(target);
    match route {
      case Index =>
        served := Welcome;
      case ToUpnp(subPath) =>
        served := Upnp(subPath);
      case ToContent(subPath) =>
        var reply := HandleRequest(subPath, rangeHeader, head, store, files, events);
        served := Content(reply);
      case NoService =>
        served := NotServed;
    }
  }

  // The first resource URL of an item whose first file is at a path.
  lemma FirstUrl(store: Store, id: int, base: string, target: Target)
    requires Consistent(store) && HasObject(store, id) && Obj(store, id).data.MediaItem?
    requires forall r :: ResourceKey(r) in store ==> r <= INT64_MAX
    requires StoredView(store, Obj(store, id)).files != []
    requires StoredView(store, Obj(store, id)).files[0].target == Some(target)
    ensures NodeOf(base, Obj(store, id)).Ok? && NodeOf(base, Obj(store, id)).value.Some?
    ensures Obj(store, id).data.resources != []
    ensures
      var node, key := NodeOf(base, Obj(store, id)).value.value, Obj(store, id).data.resources[0].ref;
      && node.ItemNode? && node.resources != []
      && key.ResourceKey? && 0 <= key.id <= INT64_MAX
      && node.resources[0].url == base + "/content/" + FormatInt(key.id)
      && key in store && store[key].ResourceRecord? && store[key].resource.location == target.path
  {
    var media := Obj(store, id);
    StoredObjectHasNode(store, id, base);
    assert |StoredView(store, media).files| == |media.data.resources|;
    assert Refs(media)[|media.artwork|] == media.data.resources[0].ref;
    var node := NodeOf(base, media).value.value;
    assert UrlsOf(node)[|media.artwork|] == node.resources[0].url;
    var key := media.data.resources[0].ref;
    assert key == ResourceKey(key.id);
  }

  // What a client that follows the URL gets: the whole file, once all is sent.
  ghost predicate Plays(served: Served, file: seq<Byte>, events: seq<Event>) {
    && served.Content? && served.reply.Ok?
    && served.reply.value.header.contentLength == |file| && !served.reply.value.header.partial
    && (served.reply.value.outcome.Completed? ==> served.reply.value.body == file)
    && (AllSent(events) && |events| >= |file| ==> served.reply.value.outcome.Completed?)
  }

  lemma AnswersPlay(served: Served, file: seq<Byte>, events: seq<Event>)
    requires served.Content? && Answers(served.reply, file, NO_RANGE, false, events)
    ensures Plays(served, file, events)
  {
    assert file[0..|file|] == file;
  }

  // The first URL of a stored item serves the bytes of its video.
  lemma ItemPlays(store: Store, id: int, base: string, target: Target, files: Files, events: seq<Event>, served: Served)
    requires Consistent(store) && HasObject(store, id) && Obj(store, id).data.MediaItem?
    requires forall r :: ResourceKey(r) in store ==> r <= INT64_MAX
    requires StoredView(store, Obj(store, id)).files != []
    requires StoredView(store, Obj(store, id)).files[0].target == Some(target)
    requires 0 as char !in target.path && target.path in files
    ensures
      && NodeOf(base, Obj(store, id)).Ok? && NodeOf(base, Obj(store, id)).value.Some?
      && var node := NodeOf(base, Obj(store, id)).value.value;
         && node.ItemNode? && node.resources != [] && base <= node.resources[0].url
         && (TargetAnswered(served, node.resources[0].url[|base|..], store, "", false, files, events) ==>
               Plays(served, files[target.path], events))
  {
    hide *;
    FirstUrl(store, id, base, target);
    var node, key := NodeOf(base, Obj(store, id)).value.value, Obj(store, id).data.resources[0].ref;
    UrlTail(base, key.id);
    if TargetAnswered(served, node.resources[0].url[|base|..], store, "", false, files, events) {
      assert key == ResourceKey(key.id);
      ResourcePlays(store, key.id, target.path, files, events, served);
    }
  }

  lemma UrlTail(base: string, id: int)
    ensures base <= base + "/content/" + FormatInt(id)
    ensures (base + "/content/" + FormatInt(id))[|base|..] == "/content/" + FormatInt(id)
  {
    hide FormatInt;
    assert base + "/content/" + FormatInt(id) == base + ("/content/" + FormatInt(id));
  }

  lemma ResourcePlays(store: Store, id: int, path: string, files: Files, events: seq<Event>, served: Served)
    requires TargetAnswered(served, "/content/" + FormatInt(id), store, "", false, files, events)
    requires 0 <= id <= INT64_MAX && ResourceKey(id) in store && store[ResourceKey(id)].ResourceRecord?
    requires store[ResourceKey(id)].resource.location == path && 0 as char !in path && path in files
    ensures Plays(served, files[path], events)
  {
    hide FormatInt, Answers, Plays, UntilNul;
    NoNul(path);
    AnswersPlay(served, files[path], events);
  }

  lemma NoNul(s: string)
    requires 0 as char !in s
    ensures UntilNul(s) == s
  {
    assert |UntilNul(s)| == |s|;
  }

  // ----- Every scanned video -----

  lemma {:induction false} VideoFound(objects: seq<Placed>, video: string) returns (placed: Placed)
    requires Some(video) in VideosAmong(objects)
    ensures placed in objects && placed.view.ItemView? && VideoOf(placed.view) == Some(video)
  {
    hide VideoOf;
    if objects[0].view.ItemView? && VideoOf(objects[0].view) == Some(video) {
      placed := objects[0];
    } else {
      placed := VideoFound(objects[1..], video);
    }
  }

  lemma {:induction false} ObjectFound(store: Store, first: int, n: nat, placed: Placed)
    requires placed in StoredObjects(store, first, n)
    ensures HasObject(store, placed.id) && placed == PlacedIn(store, placed.id)
  {
    hide PlacedIn;
    var id := first + n - 1;
    if placed in StoredObjects(store, first, n - 1) {
      ObjectFound(store, first, n - 1, placed);
    } else {
      PlacedHasId(store, id);
    }
  }

  lemma PlacedHasId(store: Store, id: int)
    requires HasObject(store, id)
    ensures PlacedIn(store, id).id == id
  {
  }

  lemma SomeScanned(path: string, entries: seq<FsEntry>, video: string)
    requires multiset(ScannedVideos(path, entries)) == multiset(AllVideos(path, entries))
    requires video in AllVideos(path, entries)
    ensures Some(video) in Somes(ScannedVideos(path, entries))
  {
    hide AllVideos, ScannedVideos;
    var all, scanned := AllVideos(path, entries), ScannedVideos(path, entries);
    assert video in multiset(all);
    assert video in scanned;
    var i :| 0 <= i < |scanned| && scanned[i] == video;
    assert Somes(scanned)[i] == Some(video);
  }

  // The item of a stored video, and that its first file is the video.
  lemma ItemOfVideo(store: Store, first: int, n: nat, video: string) returns (id: int, target: Target)
    requires Some(video) in VideosAmong(StoredObjects(store, first, n))
    ensures HasObject(store, id) && Obj(store, id).data.MediaItem? && target.path == video
    ensures StoredView(store, Obj(store, id)).files != []
    ensures StoredView(store, Obj(store, id)).files[0].target == Some(target)
  {
    var placed := VideoFound(StoredObjects(store, first, n), video);
    ObjectFound(store, first, n, placed);
    id := placed.id;
    target := placed.view.files[0].target.value;
  }

  // After a scan without failed writes, every video of the tree has an item
  // whose first URL serves exactly the bytes of that video.
  lemma ScannedVideoPlays(disk: Disk, remembered: int, path: string, entries: seq<FsEntry>, config: LibraryConfig,
                          video: string, base: string, files: Files)
    returns (id: int)
    requires disk.raised.None? && Consistent(disk.store)
    requires NoFailures(disk.outcomes) && Remembers(disk.store, remembered)
    requires forall r :: ResourceKey(r) in Scan(disk, remembered, path, entries, config).disk.store ==> r <= INT64_MAX
    requires DistinctNames(entries) && video in AllVideos(path, entries)
    requires 0 as char !in video && video in files
    ensures
      var store := Scan(disk, remembered, path, entries, config).disk.store;
      && HasObject(store, id)
      && NodeOf(base, Obj(store, id)).Ok? && NodeOf(base, Obj(store, id)).value.Some?
      && var node := NodeOf(base, Obj(store, id)).value.value;
         && node.ItemNode? && node.resources != [] && base <= node.resources[0].url
         && forall served, events ::
              TargetAnswered(served, node.resources[0].url[|base|..], store, "", false, files, events) ==>
                Plays(served, files[video], events)
  {
    hide *;
    var store, no := Scan(disk, remembered, path, entries, config).disk.store, NextId(disk.store, ObjectKind);
    ScanStoresVideos(disk, remembered, path, entries, config);
    ScanKeepsConsistent(disk, remembered, path, entries, config);
    SomeScanned(path, entries, video);
    var target;
    id, target := ItemOfVideo(store, no, NextId(store, ObjectKind) - no, video);
    ItemPlays(store, id, base, target, files, [], NotServed);
    var tail := NodeOf(base, Obj(store, id)).value.value.resources[0].url[|base|..];
    forall served, events | TargetAnswered(served, tail, store, "", false, files, events)
      ensures Plays(served, files[video], events)
    {
      ItemPlays(store, id, base, target, files, events, served);
    }
  }
}
