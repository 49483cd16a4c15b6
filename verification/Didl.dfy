// Browse responses: media objects as DIDL-Lite nodes, windows of a list, and
// the URLs the nodes advertise.
module Didl {
  import opened Wrappers
  import opened Text
  import opened Titles
  import opened Calendar
  import opened Keys
  import opened Records
  import opened KeyValue
  import opened StoreModel
  import opened StoreService
  import opened Folders
  import opened ScanPlan
  import opened StoreInvariant
  import opened Server

  const UINT32_SIZE: int := 0x1_0000_0000

  datatype ArtNode = ArtNode(url: string, artType: ArtworkType)

  datatype ResNode = ResNode(protocolInfo: string, url: string)

  datatype Fields = Fields(
    id: int,
    parentId: int,
    title: string,
    upnpClass: string,
    date: Option<Date>,
    artwork: seq<ArtNode>)

  datatype DidlNode =
    | ItemNode(fields: Fields, resources: seq<ResNode>)
    | ContainerNode(fields: Fields)

  datatype BrowseError = Unreadable(cause: StoreError) | BadArtworkRef | BadResourceRef

  // ----- One object -----

  function ResourceUrl(base: string, id: int): string {
    base + "/content/" + FormatInt(id)
  }

  predicate AllResources(keys: seq<LibraryKey>) {
    forall i :: 0 <= i < |keys| ==> keys[i].ResourceKey?
  }

  predicate ArtworkOk(artwork: seq<Artwork>) {
    forall i :: 0 <= i < |artwork| ==> artwork[i].ref.ResourceKey?
  }

  predicate ResourcesOk(refs: seq<ResourceRef>) {
    forall i :: 0 <= i < |refs| ==> refs[i].ref.ResourceKey?
  }

  function ArtNodes(base: string, artwork: seq<Artwork>): (nodes: seq<ArtNode>)
    requires ArtworkOk(artwork)
    ensures |nodes| == |artwork|
  {
    if artwork == [] then []
    else
      var n := |artwork| - 1;
      ArtNodes(base, artwork[..n]) + [ArtNode(ResourceUrl(base, artwork[n].ref.id), artwork[n].artType)]
  }

  function ResNodes(base: string, refs: seq<ResourceRef>): (nodes: seq<ResNode>)
    requires ResourcesOk(refs)
    ensures |nodes| == |refs|
  {
    if refs == [] then []
    else
      var n := |refs| - 1;
      ResNodes(base, refs[..n]) + [ResNode(ProtocolText(refs[n].protocolInfo), ResourceUrl(base, refs[n].ref.id))]
  }

  lemma {:induction false} ArtNodesAre(base: string, artwork: seq<Artwork>)
    requires ArtworkOk(artwork)
    ensures forall i :: 0 <= i < |artwork| ==>
              ArtNodes(base, artwork)[i] == ArtNode(ResourceUrl(base, artwork[i].ref.id), artwork[i].artType)
  {
    hide ResourceUrl, ProtocolText, ClassText;
    if artwork != [] {
      ArtNodesAre(base, artwork[..|artwork| - 1]);
    }
  }

  lemma {:induction false} ResNodesAre(base: string, refs: seq<ResourceRef>)
    requires ResourcesOk(refs)
    ensures forall i :: 0 <= i < |refs| ==>
              ResNodes(base, refs)[i] == ResNode(ProtocolText(refs[i].protocolInfo), ResourceUrl(base, refs[i].ref.id))
  {
    hide ResourceUrl, ProtocolText, ClassText;
    if refs != [] {
      ResNodesAre(base, refs[..|refs| - 1]);
    }
  }

  function DateNode(days: int): Option<Date> {
    if days == 0 then None else Some(CivilFromDays(days))
  }

  function FieldsOf(base: string, media: MediaObject): Fields
    requires ArtworkOk(media.artwork)
  {
    Fields(media.id, media.parentId, UntilNul(media.dcTitle), ClassText(media.upnpClass), DateNode(media.dcDate),
           ArtNodes(base, media.artwork))
  }

  // The node of an object; none for an object of no type.
  function NodeOf(base: string, media: MediaObject): Result<Option<DidlNode>, BrowseError> {
    match media.data
    case NoData => Ok(None)
    case MediaItem(refs) =>
      if !ArtworkOk(media.artwork) then Err(BadArtworkRef)
      else if !ResourcesOk(refs) then Err(BadResourceRef)
      else Ok(Some(ItemNode(FieldsOf(base, media), ResNodes(base, refs))))
    case MediaContainer(_) =>
      if !ArtworkOk(media.artwork) then Err(BadArtworkRef)
      else Ok(Some(ContainerNode(FieldsOf(base, media))))
  }

  // The document a response is built in.
  class XmlDocument {
    var nodes: seq<DidlNode>

    constructor ()
      ensures nodes == []
    {
      nodes := [];
    }

    // Appends the node of an object; says whether there is one. An exception
    // abandons the document.
    method SerializeMediaObject(base: string, media: MediaObject) returns (r: Result<bool, BrowseError>)
      modifies this
      ensures var node := NodeOf(base, media);
              if node.Err? then r == Err(node.error) && nodes == old(nodes)
              else r == Ok(node.value.Some?) && nodes == WithNode(old(nodes), node.value)
    {
      hide ResourceUrl, ProtocolText, ClassText, UntilNul, CivilFromDays;
      match media.data
      case NoData =>
        return Ok(false);
      case MediaContainer(_) =>
        var fields := CommonFields(base, media);
        if fields.Err? {
          return Err(fields.error);
        }
        nodes := nodes + [ContainerNode(fields.value)];
        return Ok(true);
      case MediaItem(refs) =>
        var fields := CommonFields(base, media);
        if fields.Err? {
          return Err(fields.error);
        }
        var resources: seq<ResNode> := [];
        for i := 0 to |refs|
          invariant ResourcesOk(refs[..i]) && resources == ResNodes(base, refs[..i])
        {
          if !refs[i].ref.ResourceKey? {
            return Err(BadResourceRef);
          }
          assert refs[..i + 1][..i] == refs[..i];
          resources := resources + [ResNode(ProtocolText(refs[i].protocolInfo), ResourceUrl(base, refs[i].ref.id))];
        }
        assert refs[..|refs|] == refs;
        nodes := nodes + [ItemNode(fields.value, resources)];
        return Ok(true);
    }

    static method CommonFields(base: string, media: MediaObject) returns (r: Result<Fields, BrowseError>)
      ensures r == if ArtworkOk(media.artwork) then Ok(FieldsOf(base, media)) else Err(BadArtworkRef)
    {
      hide ResourceUrl, ProtocolText, ClassText, UntilNul, CivilFromDays;
      var art: seq<ArtNode> := [];
      for i := 0 to |media.artwork|
        invariant ArtworkOk(media.artwork[..i]) && art == ArtNodes(base, media.artwork[..i])
      {
        if !media.artwork[i].ref.ResourceKey? {
          return Err(BadArtworkRef);
        }
        assert media.artwork[..i + 1][..i] == media.artwork[..i];
        art := art + [ArtNode(ResourceUrl(base, media.artwork[i].ref.id), media.artwork[i].artType)];
      }
      assert media.artwork[..|media.artwork|] == media.artwork;
      var date := if media.dcDate == 0 then None else Some(CivilFromDays(media.dcDate));
      return Ok(Fields(media.id, media.parentId, UntilNul(media.dcTitle), ClassText(media.upnpClass), date, art));
    }
  }

  // ----- A window of a list -----

  // The node of a listed object, read from a snapshot.
  function ReadNode(store: Store, key: LibraryKey, base: string): Result<Option<DidlNode>, BrowseError> {
    var media := ReadObject(store, key);
    if media.Err? then Err(Unreadable(media.error)) else NodeOf(base, media.value)
  }

  function WithNode(nodes: seq<DidlNode>, node: Option<DidlNode>): seq<DidlNode> {
    if node.Some? then nodes + [node.value] else nodes
  }

  // The nodes of the listed objects in order, up to the first failure.
  function Serialized(store: Store, keys: seq<LibraryKey>, base: string): Result<seq<DidlNode>, BrowseError> {
    if keys == [] then Ok([])
    else
      var before := Serialized(store, keys[..|keys| - 1], base);
      var next := ReadNode(store, keys[|keys| - 1], base);
      if before.Err? then before
      else if next.Err? then Err(next.error)
      else Ok(WithNode(before.value, next.value))
  }

  lemma SerializedNext(store: Store, keys: seq<LibraryKey>, key: LibraryKey, base: string)
    requires Serialized(store, keys, base).Ok?
    ensures var next := ReadNode(store, key, base);
            Serialized(store, keys + [key], base)
            == if next.Err? then Err(next.error) else Ok(WithNode(Serialized(store, keys, base).value, next.value))
  {
    hide ReadNode;
    assert (keys + [key])[..|keys|] == keys;
  }

  lemma {:induction false} SerializedError(store: Store, keys: seq<LibraryKey>, n: nat, base: string)
    requires n <= |keys| && Serialized(store, keys[..n], base).Err?
    ensures Serialized(store, keys, base) == Serialized(store, keys[..n], base)
  {
    hide NodeOf;
    if n < |keys| {
      var m := |keys| - 1;
      assert keys[..m][..n] == keys[..n];
      SerializedError(store, keys[..m], n, base);
    } else {
      assert keys[..n] == keys;
    }
  }

  // A requested count of 0 asks for the whole list, whose size is then cut to
  // 32 bits.
  function RequestedCount(size: nat, requested: nat): nat {
    if requested == 0 then size % UINT32_SIZE else requested
  }

  function Window(keys: seq<LibraryKey>, start: nat, requested: nat): (page: seq<LibraryKey>)
  {
    var lo := Min(start, |keys|);
    keys[lo..Min(lo + RequestedCount(|keys|, requested), |keys|)]
  }

  datatype BrowseReply = BrowseReply(nodes: seq<DidlNode>, numberReturned: nat, totalMatches: nat)

  function ReplyOf(store: Store, keys: seq<LibraryKey>, start: nat, requested: nat, base: string)
    : Result<BrowseReply, BrowseError>
  {
    match Serialized(store, Window(keys, start, requested), base)
    case Err(e) => Err(e)
    case Ok(nodes) => Ok(BrowseReply(nodes, |nodes|, |keys|))
  }

  // The reply depends on the listed view alone: whatever is committed after
  // the listing does not change it.
  method BrowseResponse(list: ListResultView, startIndex: nat, requestedCount: nat, base: string)
    returns (r: Result<BrowseReply, BrowseError>)
    requires list.Valid() && startIndex < UINT32_SIZE && requestedCount < UINT32_SIZE
    modifies list.dbIt
    ensures r == ReplyOf(AsMap(list.dbIt.snapshot), list.objects, startIndex, requestedCount, base)
  {
    hide NodeOf, AsMap, Serialized, ReadNode, ReadObject;
    var doc := new XmlDocument();
    var size := |list.objects|;
    var requested := RequestedCount(size, requestedCount);
    var cursor := new Cursor(list);
    var lo := Min(startIndex, size);
    var hi := Min(lo + requested, size);
    cursor.Advance(lo);
    ghost var store := AsMap(list.dbIt.snapshot);
    ghost var page := list.objects[lo..hi];
    var count := 0;
    assert page[..0] == [];
    NothingSerialized(store, base);
    while cursor.keyIndex < hi
      invariant lo <= cursor.keyIndex <= hi && cursor.view == list && fresh(cursor) && fresh(doc)
      invariant Serialized(store, page[..cursor.keyIndex - lo], base) == Ok(doc.nodes)
      invariant count == |doc.nodes|
      decreases hi - cursor.keyIndex
    {
      var n := cursor.keyIndex - lo;
      assert page[..n + 1] == page[..n] + [list.objects[cursor.keyIndex]];
      SerializedNext(store, page[..n], list.objects[cursor.keyIndex], base);
      var emitted := Emit(cursor, doc, base);
      if emitted.Err? {
        SerializedError(store, page, n + 1, base);
        return Err(emitted.error);
      }
      if emitted.value {
        count := count + 1;
      }
      cursor.Next();
    }
    assert page[..|page|] == page;
    return Ok(BrowseReply(doc.nodes, count, size));
  }

  // Reads the object at the cursor and serializes it.
  method Emit(cursor: Cursor, doc: XmlDocument, base: string) returns (r: Result<bool, BrowseError>)
    requires cursor.view.Valid() && 0 <= cursor.keyIndex < |cursor.view.objects|
    modifies cursor.view.dbIt, doc
    ensures var node := ReadNode(AsMap(cursor.view.dbIt.snapshot), cursor.view.objects[cursor.keyIndex], base);
            if node.Err? then r == Err(node.error) && doc.nodes == old(doc.nodes)
            else r == Ok(node.value.Some?) && doc.nodes == WithNode(old(doc.nodes), node.value)
  {
    hide NodeOf, AsMap, ReadObject;
    var media := cursor.Read();
    if media.Err? {
      return Err(Unreadable(media.error));
    }
    r := doc.SerializeMediaObject(base, media.value);
  }

  lemma NothingSerialized(store: Store, base: string)
    ensures Serialized(store, [], base) == Ok([])
  {
  }

  // ----- Listings of a consistent store -----

  // Keys of stored objects, as every child list of a consistent store holds.
  ghost predicate ObjectsOf(store: Store, keys: seq<LibraryKey>) {
    forall i :: 0 <= i < |keys| ==> keys[i].ObjectKey? && HasObject(store, keys[i].id)
  }

  lemma ChildrenAreObjects(store: Store, id: int)
    requires Consistent(store) && HasObject(store, id)
    ensures ObjectsOf(store, ChildKeys(Obj(store, id)))
  {
    hide Typed, ParentsList, ChildrenAscending, RefsResolve, RefsUnique, ResourcesUsed, MoviesOnly, ContainersUndated;
  }

  // The URLs a node advertises, artwork first.
  function UrlsOf(node: DidlNode): seq<string> {
    seq(|node.fields.artwork|, i requires 0 <= i < |node.fields.artwork| => node.fields.artwork[i].url) +
    if node.ItemNode? then seq(|node.resources|, i requires 0 <= i < |node.resources| => node.resources[i].url) else []
  }

  // A day number is shown as the date of that day, and 0 not at all.
  ghost predicate ShowsDate(shown: Option<Date>, days: int) {
    if days == 0 then shown.None?
    else shown.Some? && IsDate(shown.value) && DaysFromCivil(shown.value) == days
  }

  // The text of a resource's MIME type, and what says how to get it.
  predicate ShowsProtocol(text: string, mimeType: MimeType) {
    text == "http-get:*:" + MimeText(mimeType) + ":*"
  }

  // The node shows its object: id, parent and kind, the title up to a NUL, the
  // class, the date, and for each artwork its type and for each resource how to
  // get it. It advertises exactly the resources the object refers to.
  ghost predicate Advertises(node: DidlNode, media: MediaObject, base: string) {
    && node.fields.id == media.id && node.fields.parentId == media.parentId
    && (node.ItemNode? <==> media.data.MediaItem?)
    && node.fields.title <= media.dcTitle && 0 as char !in node.fields.title
    && (|node.fields.title| < |media.dcTitle| ==> media.dcTitle[|node.fields.title|] == 0 as char)
    && node.fields.upnpClass
       == (if media.upnpClass == MovieClass then "object.item.videoItem.movie" else "object.container")
    && ShowsDate(node.fields.date, media.dcDate)
    && |node.fields.artwork| == |media.artwork|
    && (forall i :: 0 <= i < |media.artwork| ==> node.fields.artwork[i].artType == media.artwork[i].artType)
    && (media.data.MediaItem? ==>
          && |node.resources| == |media.data.resources|
          && forall i :: 0 <= i < |node.resources| ==>
               ShowsProtocol(node.resources[i].protocolInfo, media.data.resources[i].protocolInfo.mimeType))
    && |UrlsOf(node)| == |Refs(media)|
    && forall i :: 0 <= i < |Refs(media)| ==>
         Refs(media)[i].ResourceKey? && UrlsOf(node)[i] == ResourceUrl(base, Refs(media)[i].id)
  }

  lemma DateNodeShows(days: int)
    ensures ShowsDate(DateNode(days), days)
  {
    DayRoundTrip(days);
    hide DaysFromCivil, CivilFromDays, IsDate;
  }

  lemma NodeAdvertises(base: string, media: MediaObject)
    requires !media.data.NoData? && AllResources(Refs(media))
    ensures NodeOf(base, media).Ok? && NodeOf(base, media).value.Some?
    ensures Advertises(NodeOf(base, media).value.value, media, base)
  {
    DateNodeShows(media.dcDate);
    hide ResourceUrl, MimeText, UntilNul, DateNode, ShowsDate, ArtNodes, ResNodes;
    forall i | 0 <= i < |media.artwork| ensures media.artwork[i].ref.ResourceKey? {
      assert Refs(media)[i] == media.artwork[i].ref;
    }
    ArtNodesAre(base, media.artwork);
    if media.data.MediaItem? {
      forall i | 0 <= i < |media.data.resources| ensures media.data.resources[i].ref.ResourceKey? {
        assert Refs(media)[|media.artwork| + i] == media.data.resources[i].ref;
      }
      ResNodesAre(base, media.data.resources);
    }
  }

  // Every object of a consistent store has a node that shows it, and the
  // resources that the node advertises are stored.
  lemma StoredObjectHasNode(store: Store, id: int, base: string)
    requires Consistent(store) && HasObject(store, id)
    ensures var media := Obj(store, id);
            && NodeOf(base, media).Ok? && NodeOf(base, media).value.Some?
            && Advertises(NodeOf(base, media).value.value, media, base) && media.id == id
            && forall i :: 0 <= i < |Refs(media)| ==>
                 Refs(media)[i].ResourceKey? && Refs(media)[i] in store && Refs(media)[i].id >= 0
  {
    hide ParentsList, ChildrenExist, ChildrenAscending, RefsUnique, ResourcesUsed, MoviesOnly, ContainersUndated,
      Advertises, NodeOf, Refs;
    var media := Obj(store, id);
    forall i | 0 <= i < |Refs(media)| ensures Refs(media)[i].ResourceKey? && Refs(media)[i] in store {}
    NodeAdvertises(base, media);
  }

  // Serializing stored objects never fails and skips none of them.
  lemma {:induction false} StoredObjectsSerialize(store: Store, keys: seq<LibraryKey>, base: string)
    requires Consistent(store) && ObjectsOf(store, keys)
    ensures Serialized(store, keys, base).Ok?
    ensures var nodes := Serialized(store, keys, base).value;
            && |nodes| == |keys|
            && forall i :: 0 <= i < |keys| ==>
                 nodes[i].fields.id == keys[i].id && Advertises(nodes[i], Obj(store, keys[i].id), base)
  {
    hide Consistent, NodeOf, UrlsOf, Refs, Advertises;
    if keys != [] {
      var n := |keys| - 1;
      StoredObjectsSerialize(store, keys[..n], base);
      StoredObjectHasNode(store, keys[n].id, base);
      assert keys[n] == ObjectKey(keys[n].id);
      NodeHasId(base, Obj(store, keys[n].id));
    }
  }

  lemma NodeHasId(base: string, media: MediaObject)
    requires NodeOf(base, media).Ok? && NodeOf(base, media).value.Some?
    ensures NodeOf(base, media).value.value.fields.id == media.id
  {
  }

  // Every URL a listed object advertises is the base URL followed by a target
  // that the server routes to the content service, which reads the id of a
  // stored resource from it.
  lemma EmittedUrlsResolve(store: Store, id: int, base: string, i: nat)
    requires Consistent(store) && HasObject(store, id)
    requires forall r :: ResourceKey(r) in store ==> r <= INT64_MAX
    requires i < |Refs(Obj(store, id))|
    ensures NodeOf(base, Obj(store, id)).Ok? && NodeOf(base, Obj(store, id)).value.Some?
    ensures var urls := UrlsOf(NodeOf(base, Obj(store, id)).value.value);
            var r := Refs(Obj(store, id))[i].id;
            && i < |urls| && base <= urls[i]
            && RouteOf(urls[i][|base|..]) == ToContent(FormatInt(r))
            && ParseInt64(FormatInt(r)) == Some(r)
            && ResourceKey(r) in store && store[ResourceKey(r)].ResourceRecord?
  {
    hide ParentsList, ChildrenExist, ChildrenAscending, RefsResolve, RefsUnique, ResourcesUsed, MoviesOnly,
      ContainersUndated, NodeOf, UrlsOf, Refs;
    StoredObjectHasNode(store, id, base);
    var key := Refs(Obj(store, id))[i];
    assert key == ResourceKey(key.id);
    UrlResolves(base, key.id);
  }

  lemma UrlResolves(base: string, id: int)
    requires 0 <= id <= INT64_MAX
    ensures var url := ResourceUrl(base, id);
            base <= url && RouteOf(url[|base|..]) == ToContent(FormatInt(id)) && ParseInt64(FormatInt(id)) == Some(id)
  {
    hide RouteOf, ParseInt64, FormatInt;
    ContentRoute(id);
    var url := ResourceUrl(base, id);
    assert url == base + ("/content/" + FormatInt(id));
    assert url[|base|..] == "/content/" + FormatInt(id);
  }

  // ----- Paging -----

  // The replies to requests for k children at 0, k, 2k, ... put together.
  function Pages(store: Store, keys: seq<LibraryKey>, base: string, start: nat, k: nat): seq<DidlNode>
    requires k > 0
    decreases |keys| - start
  {
    if start >= |keys| then []
    else
      var reply := ReplyOf(store, keys, start, k, base);
      (if reply.Ok? then reply.value.nodes else []) + Pages(store, keys, base, start + k, k)
  }

  lemma {:induction false} SerializedAppend(store: Store, a: seq<LibraryKey>, b: seq<LibraryKey>, base: string)
    requires Consistent(store) && ObjectsOf(store, a) && ObjectsOf(store, b)
    ensures Serialized(store, a, base).Ok? && Serialized(store, b, base).Ok? && Serialized(store, a + b, base).Ok?
    ensures Serialized(store, a + b, base).value == Serialized(store, a, base).value + Serialized(store, b, base).value
    decreases |b|
  {
    hide Consistent, NodeOf, UrlsOf, Advertises;
    StoredObjectsSerialize(store, a, base);
    StoredObjectsSerialize(store, b, base);
    if b == [] {
      assert a + b == a;
    } else {
      var n := |b| - 1;
      assert a + b == (a + b[..n]) + [b[n]];
      assert b == b[..n] + [b[n]];
      SerializedAppend(store, a, b[..n], base);
      SerializedNext(store, a + b[..n], b[n], base);
      SerializedNext(store, b[..n], b[n], base);
      StoredObjectHasNode(store, b[n].id, base);
      assert b[n] == ObjectKey(b[n].id);
    }
  }

  lemma {:induction false} PagesFrom(store: Store, keys: seq<LibraryKey>, base: string, start: nat, k: nat)
    requires Consistent(store) && ObjectsOf(store, keys) && k > 0 && start <= |keys|
    ensures Serialized(store, keys[start..], base).Ok?
    ensures Pages(store, keys, base, start, k) == Serialized(store, keys[start..], base).value
    decreases |keys| - start
  {
    hide Consistent, NodeOf, Serialized;
    if start == |keys| {
      assert keys[start..] == [];
      NothingSerialized(store, base);
    } else {
      var page := Window(keys, start, k);
      var next := Min(start + k, |keys|);
      assert page == keys[start..next];
      assert keys[start..] == page + keys[next..];
      SerializedAppend(store, page, keys[next..], base);
      if start + k <= |keys| {
        PagesFrom(store, keys, base, start + k, k);
      } else {
        assert keys[next..] == [];
        NothingSerialized(store, base);
      }
    }
  }

  // Paging through a child list shows every child once, in order, and so does
  // one request for all of it. Every reply holds the nodes of its window, all
  // that remain if no count is given, and counts them.
  lemma PagingLosesNothing(store: Store, id: int, base: string, start: nat, k: nat)
    requires Consistent(store) && HasObject(store, id) && 0 < k
    requires |ChildKeys(Obj(store, id))| < UINT32_SIZE
    ensures
      var keys := ChildKeys(Obj(store, id));
      var all, page := ReplyOf(store, keys, 0, 0, base), ReplyOf(store, keys, start, k, base);
      var rest := ReplyOf(store, keys, start, 0, base);
      && all.Ok? && all.value.nodes == Pages(store, keys, base, 0, k)
      && |all.value.nodes| == |keys| == all.value.numberReturned == all.value.totalMatches
      && ObjectsOf(store, keys)
      && (forall i :: 0 <= i < |keys| ==>
            all.value.nodes[i].fields.id == keys[i].id
            && Advertises(all.value.nodes[i], Obj(store, keys[i].id), base))
      && page.Ok? && page.value.numberReturned == |page.value.nodes|
      && page.value.numberReturned == (if start >= |keys| then 0 else Min(k, |keys| - start))
      && page.value.totalMatches == |keys|
      && page.value.nodes == all.value.nodes[Min(start, |keys|)..Min(start + k, |keys|)]
      && rest.Ok? && rest.value.nodes == all.value.nodes[Min(start, |keys|)..]
  {
    hide Consistent, NodeOf, Serialized, Pages, Advertises;
    var keys := ChildKeys(Obj(store, id));
    ChildrenAreObjects(store, id);
    assert keys[0..] == keys;
    PagesFrom(store, keys, base, 0, k);
    assert Window(keys, 0, 0) == keys;
    StoredObjectsSerialize(store, keys, base);
    var page := Window(keys, start, k);
    assert ObjectsOf(store, page);
    StoredObjectsSerialize(store, page, base);
    var lo, hi := Min(start, |keys|), Min(start + k, |keys|);
    assert page == keys[lo..hi];
    assert Window(keys, start, 0) == keys[lo..];
    SlicesSerialize(store, keys, lo, hi, base);
  }

  // A window of a list is serialized as the window of its nodes.
  lemma SlicesSerialize(store: Store, keys: seq<LibraryKey>, lo: nat, hi: nat, base: string)
    requires Consistent(store) && ObjectsOf(store, keys) && lo <= hi <= |keys|
    ensures Serialized(store, keys, base).Ok? && |Serialized(store, keys, base).value| == |keys|
    ensures Serialized(store, keys[lo..hi], base) == Ok(Serialized(store, keys, base).value[lo..hi])
    ensures Serialized(store, keys[lo..], base) == Ok(Serialized(store, keys, base).value[lo..])
  {
    hide Consistent, NodeOf, Serialized, Advertises;
    assert keys == keys[..lo] + keys[lo..] && keys[lo..] == keys[lo..hi] + keys[hi..];
    StoredObjectsSerialize(store, keys, base);
    StoredObjectsSerialize(store, keys[..lo], base);
    StoredObjectsSerialize(store, keys[lo..hi], base);
    SerializedAppend(store, keys[..lo], keys[lo..], base);
    SerializedAppend(store, keys[lo..hi], keys[hi..], base);
    var before, window := Serialized(store, keys[..lo], base).value, Serialized(store, keys[lo..hi], base).value;
    var behind := Serialized(store, keys[hi..], base).value;
    assert Serialized(store, keys, base).value == before + (window + behind);
    assert (before + (window + behind))[lo..hi] == window;
    assert (before + (window + behind))[lo..] == window + behind;
  }

  // ----- Dates -----

  // The node of a stored movie: its title, class and date are those of the name.
  // The year is shown as its January 1st, unless there is none or it is 1970,
  // whose first day is the value for "no date".
  lemma MovieDateShown(store: Store, id: int, base: string, context: FolderContext, video: NamedFile,
                       firstResource: int)
    requires Consistent(store) && HasObject(store, id)
    requires Obj(store, id) == Item(context, video, id, firstResource)
    ensures NodeOf(base, Obj(store, id)).Ok? && NodeOf(base, Obj(store, id)).value.Some?
    ensures
      var fields, title := NodeOf(base, Obj(store, id)).value.value.fields, TitleOf(context, video);
      && fields.title == title.text && fields.upnpClass == "object.item.videoItem.movie"
      && fields.date == if title.year == 0 || title.year == 1970 then None else Some(Date(title.year, 1, 1))
  {
    StoredObjectHasNode(store, id, base);
    ItemShows(context, video, id, firstResource);
    var fields, title := NodeOf(base, Obj(store, id)).value.value.fields, TitleOf(context, video);
    TitleHasNoNul(context, video);
    ShownDateIs(fields.date, title.year);
    hide Consistent, NodeOf, Item, TitleOf, DateOf, ShowsDate, UrlsOf, Refs, ResourceUrl, ShowsProtocol;
    WholeTitle(fields.title, title.text);
  }

  lemma WholeTitle(shown: string, text: string)
    requires shown <= text && (|shown| < |text| ==> text[|shown|] == 0 as char)
    ensures 0 as char in text || shown == text
  {
    if |shown| < |text| {
      assert text[|shown|] in text;
    }
  }

  lemma ItemShows(context: FolderContext, video: NamedFile, id: int, firstResource: int)
    ensures var item := Item(context, video, id, firstResource);
            && item.dcTitle == TitleOf(context, video).text && item.upnpClass == MovieClass
            && item.dcDate == DateOf(TitleOf(context, video).year)
  {
    hide ArtOf, ItemSubtitles, TitleOf, DateOf, SortedByType, RefsTo, ArtworkRefs;
  }

  lemma TitleHasNoNul(context: FolderContext, video: NamedFile)
    ensures 0 as char !in TitleOf(context, video).text
  {
    hide NormalizedTitle, ResourcePrefix;
    NormalizedIsClean(
      if context.folderName == "" then ResourcePrefix(context.folderName, video.name) else context.folderName);
  }

  // The date shown for the day number of a year.
  lemma ShownDateIs(shown: Option<Date>, year: int)
    ensures ShowsDate(shown, DateOf(year)) ==>
              shown == if year == 0 || year == 1970 then None else Some(Date(year, 1, 1))
  {
    EpochIs1970(Date(year, 1, 1));
    DateRoundTrip(Date(year, 1, 1));
    if shown.Some? && IsDate(shown.value) {
      DateRoundTrip(shown.value);
    }
    hide DaysFromCivil, CivilFromDays, IsDate;
  }

  // A movie of 1970: the year is found, and no date is shown.
  lemma MovieOf1970()
    ensures NormalizedTitle("MASH.1970") == Title("MASH", 1970)
    ensures DateNode(DateOf(1970)).None?
  {
    hide NormalizedTitle, DaysFromCivil, CivilFromDays;
    NormalizedMash();
    EpochIs1970(Date(1970, 1, 1));
  }
}
