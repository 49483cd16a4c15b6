// What the objects that a scan writes show: as the tree is told to be shown.
module ScanViews {
  import opened Wrappers
  import opened Text
  import opened Titles
  import opened Calendar
  import opened Keys
  import opened Records
  import opened StoreModel
  import opened Folders
  import opened ScanWalk
  import opened ScanPlan
  import opened StoreInvariant
  import opened ScanProperties
  import opened Expected

  // ----- What the references of an object lead to -----

  function TargetText(resource: Resource): Target {
    Target(resource.location, MimeText(resource.mimeType))
  }

  // The file of a key among some resources that are numbered from an id on.
  function TargetOf(key: LibraryKey, resources: seq<StoredResource>, first: int): Option<Target> {
    if key.ResourceKey? && 0 <= key.id - first < |resources| then Some(TargetText(resources[key.id - first].resource))
    else None
  }

  function FileTargets(refs: seq<ResourceRef>, resources: seq<StoredResource>, first: int): (links: seq<FileLink>)
    ensures |links| == |refs|
  {
    seq(|refs|, i requires 0 <= i < |refs| =>
      FileLink(TargetOf(refs[i].ref, resources, first), ProtocolText(refs[i].protocolInfo)))
  }

  function ArtTargets(refs: seq<Artwork>, resources: seq<StoredResource>, first: int): (links: seq<ArtLink>)
    ensures |links| == |refs|
  {
    seq(|refs|, i requires 0 <= i < |refs| => ArtLink(TargetOf(refs[i].ref, resources, first), refs[i].artType))
  }

  // What an object of a batch shows, given the resources of the batch.
  function ViewIn(media: MediaObject, resources: seq<StoredResource>, first: int): ObjectView {
    if media.data.MediaItem? then
      ItemView(ClassText(media.upnpClass), media.dcTitle, media.dcDate,
               FileTargets(media.data.resources, resources, first), ArtTargets(media.artwork, resources, first))
    else FolderView(ClassText(media.upnpClass), media.dcTitle, ArtTargets(media.artwork, resources, first))
  }

  function Views(items: seq<MediaObject>, resources: seq<StoredResource>, first: int): (objects: seq<Placed>)
    ensures |objects| == |items|
  {
    seq(|items|, i requires 0 <= i < |items| =>
      Placed(items[i].id, items[i].parentId, ViewIn(items[i], resources, first)))
  }

  // The objects of a list of batches.
  function PlanViews(batches: seq<Batch>, first: int): seq<Placed>
    decreases |batches|
  {
    if batches == [] then []
    else Views(batches[0].items, batches[0].resources, first)
         + PlanViews(batches[1..], first + |batches[0].resources|)
  }

  lemma {:induction false} PlanViewsAppend(a: seq<Batch>, b: seq<Batch>, first: int)
    ensures PlanViews(a + b, first) == PlanViews(a, first) + PlanViews(b, first + |Resources(a)|)
    decreases |a|
  {
    hide Views;
    if a == [] {
      assert a + b == b;
    } else {
      assert (a + b)[0] == a[0] && (a + b)[1..] == a[1..] + b;
      PlanViewsAppend(a[1..], b, first + |a[0].resources|);
    }
  }

  // ----- What the items of a folder lead to -----

  function InfoLink(info: FileInfo): FileLink {
    FileLink(Some(TargetText(ToResource(info))), ProtocolText(HttpGet(info.mimeType)))
  }

  function ArtFileLink(file: ArtFile): ArtLink {
    ArtLink(Some(TargetText(ToResource(file.info))), file.artType)
  }

  function InfoLinks(files: seq<NamedFile>): (links: seq<FileLink>)
    ensures |links| == |files|
  {
    seq(|files|, i requires 0 <= i < |files| => InfoLink(files[i].info))
  }

  function ArtFileLinks(art: seq<ArtFile>): (links: seq<ArtLink>)
    ensures |links| == |art|
  {
    seq(|art|, i requires 0 <= i < |art| => ArtFileLink(art[i]))
  }

  function FilesOfType(art: seq<ArtFile>, artType: ArtworkType): seq<ArtFile> {
    if art == [] then []
    else FilesOfType(art[..|art| - 1], artType) +
         if art[|art| - 1].artType == artType then [art[|art| - 1]] else []
  }

  // What a video's item leads to, in terms of the files of its folder.
  function ViewFor(context: FolderContext, video: NamedFile): ObjectView {
    var art := ArtOf(context, video);
    ItemView(
      ClassText(MovieClass),
      TitleOf(context, video).text,
      DateOf(TitleOf(context, video).year),
      [InfoLink(video.info)] + InfoLinks(ItemSubtitles(context, video)),
      ArtFileLinks(FilesOfType(art, Poster) + FilesOfType(art, Thumbnail)))
  }

  // Files whose resources are numbered from an id on, among others.
  ghost predicate NumberedAt(infos: seq<FileInfo>, at: int, resources: seq<StoredResource>, first: int) {
    && first <= at && at - first + |infos| <= |resources|
    && forall i :: 0 <= i < |infos| ==> resources[at - first + i].resource == ToResource(infos[i])
  }

  lemma ArtTargetsNext(refs: seq<Artwork>, ref: Artwork, resources: seq<StoredResource>, first: int)
    ensures ArtTargets(refs + [ref], resources, first)
            == ArtTargets(refs, resources, first) + [ArtLink(TargetOf(ref.ref, resources, first), ref.artType)]
  {
  }

  lemma ArtFileLinksNext(art: seq<ArtFile>, file: ArtFile)
    ensures ArtFileLinks(art + [file]) == ArtFileLinks(art) + [ArtFileLink(file)]
  {
  }

  lemma OfTypeNext(refs: seq<Artwork>, ref: Artwork, artType: ArtworkType)
    ensures OfType(refs + [ref], artType) == OfType(refs, artType) + if ref.artType == artType then [ref] else []
  {
    assert (refs + [ref])[..|refs|] == refs;
  }

  lemma FilesOfTypeNext(art: seq<ArtFile>, file: ArtFile, artType: ArtworkType)
    ensures FilesOfType(art + [file], artType)
            == FilesOfType(art, artType) + if file.artType == artType then [file] else []
  {
    assert (art + [file])[..|art|] == art;
  }

  lemma {:induction false} OfTypeLeads(art: seq<ArtFile>, at: int, artType: ArtworkType,
                                       resources: seq<StoredResource>, first: int)
    requires NumberedAt(ArtInfos(art), at, resources, first)
    ensures ArtTargets(OfType(ArtworkRefs(art, at), artType), resources, first)
            == ArtFileLinks(FilesOfType(art, artType))
  {
    hide *;
    if art == [] {
      NoArt(at, artType, resources, first);
    } else {
      var n := |art| - 1;
      var front, last := art[..n], art[n];
      var ref := Artwork(ResourceKey(at + n), last.artType);
      assert art == front + [last];
      NextArtFile(front, last, at);
      NumberedSplit(ArtInfos(front), [last.info], at, resources, first);
      OfTypeLeads(front, at, artType, resources, first);
      LastTarget(last.info, at + n, resources, first);
      var refs, files := OfType(ArtworkRefs(front, at), artType), FilesOfType(front, artType);
      assert ArtworkRefs(art, at) == ArtworkRefs(front, at) + [ref];
      OfTypeNext(ArtworkRefs(front, at), ref, artType);
      FilesOfTypeNext(front, last, artType);
      if last.artType == artType {
        ArtTargetsNext(refs, ref, resources, first);
        ArtFileLinksNext(files, last);
        ArtFileLinkIs(last);
      } else {
        assert refs + [] == refs && files + [] == files;
      }
    }
  }

  lemma LastTarget(info: FileInfo, at: int, resources: seq<StoredResource>, first: int)
    requires NumberedAt([info], at, resources, first)
    ensures TargetOf(ResourceKey(at), resources, first) == Some(TargetText(ToResource(info)))
  {
    hide ToResource, TargetText;
    assert [info][0] == info;
  }

  lemma ArtFileLinkIs(file: ArtFile)
    ensures ArtFileLink(file) == ArtLink(Some(TargetText(ToResource(file.info))), file.artType)
  {
  }

  lemma NoArt(at: int, artType: ArtworkType, resources: seq<StoredResource>, first: int)
    ensures ArtTargets(OfType(ArtworkRefs([], at), artType), resources, first)
            == ArtFileLinks(FilesOfType([], artType))
  {
  }

  lemma ArtworkLeads(art: seq<ArtFile>, at: int, resources: seq<StoredResource>, first: int)
    requires NumberedAt(ArtInfos(art), at, resources, first)
    ensures ArtTargets(SortedByType(ArtworkRefs(art, at)), resources, first)
            == ArtFileLinks(FilesOfType(art, Poster) + FilesOfType(art, Thumbnail))
  {
    hide OfType, ArtworkRefs, FilesOfType, NumberedAt, ArtInfos;
    OfTypeLeads(art, at, Poster, resources, first);
    OfTypeLeads(art, at, Thumbnail, resources, first);
    var posters, thumbnails := OfType(ArtworkRefs(art, at), Poster), OfType(ArtworkRefs(art, at), Thumbnail);
    assert ArtTargets(posters + thumbnails, resources, first)
           == ArtTargets(posters, resources, first) + ArtTargets(thumbnails, resources, first);
    assert ArtFileLinks(FilesOfType(art, Poster) + FilesOfType(art, Thumbnail))
           == ArtFileLinks(FilesOfType(art, Poster)) + ArtFileLinks(FilesOfType(art, Thumbnail));
  }

  lemma FilesLead(video: NamedFile, subtitles: seq<NamedFile>, at: int, subtitlesAt: int,
                  resources: seq<StoredResource>, first: int)
    requires NumberedAt([video.info], at, resources, first)
    requires NumberedAt(Infos(subtitles), subtitlesAt, resources, first)
    ensures FileTargets([RefTo(at, video.info)] + RefsTo(subtitles, subtitlesAt), resources, first)
            == [InfoLink(video.info)] + InfoLinks(subtitles)
  {
    hide RefsTo, Infos, ToResource;
    RefsToAre(subtitles, subtitlesAt);
    InfosAre(subtitles);
    var refs := [RefTo(at, video.info)] + RefsTo(subtitles, subtitlesAt);
    forall i | 0 <= i < |refs|
      ensures FileTargets(refs, resources, first)[i] == ([InfoLink(video.info)] + InfoLinks(subtitles))[i]
    {
      if i == 0 {
        assert [video.info][0] == video.info;
      } else {
        assert refs[i] == RefTo(subtitlesAt + (i - 1), subtitles[i - 1].info);
        assert Infos(subtitles)[i - 1] == subtitles[i - 1].info;
      }
    }
  }

  lemma {:induction false} InfosAre(files: seq<NamedFile>)
    ensures forall i :: 0 <= i < |files| ==> Infos(files)[i] == files[i].info
  {
    if files != [] {
      InfosAre(files[..|files| - 1]);
    }
  }

  // Its video, artwork and subtitles are numbered one after the other.
  lemma PartsNumbered(context: FolderContext, video: NamedFile, at: int, resources: seq<StoredResource>, first: int)
    requires NumberedAt(ItemFiles(context, video), at, resources, first)
    ensures
      var art, subtitles := ArtOf(context, video), ItemSubtitles(context, video);
      && NumberedAt([video.info], at, resources, first)
      && NumberedAt(ArtInfos(art), at + 1, resources, first)
      && NumberedAt(Infos(subtitles), at + 1 + |art|, resources, first)
  {
    hide ArtOf, ItemSubtitles, Infos, ArtInfos, ToResource;
    var art, subtitles := ArtOf(context, video), ItemSubtitles(context, video);
    NumberedSplit([video.info] + ArtInfos(art), Infos(subtitles), at, resources, first);
    NumberedSplit([video.info], ArtInfos(art), at, resources, first);
  }

  lemma NumberedSplit(a: seq<FileInfo>, b: seq<FileInfo>, at: int, resources: seq<StoredResource>, first: int)
    requires NumberedAt(a + b, at, resources, first)
    ensures NumberedAt(a, at, resources, first) && NumberedAt(b, at + |a|, resources, first)
  {
    hide ToResource;
    forall i | 0 <= i < |a| ensures resources[at - first + i].resource == ToResource(a[i]) {
      assert (a + b)[i] == a[i];
    }
    forall i | 0 <= i < |b| ensures resources[at + |a| - first + i].resource == ToResource(b[i]) {
      assert (a + b)[|a| + i] == b[i];
    }
  }

  // Each reference of an item leads to its own file: the video, the matching
  // subtitles in order, and the artwork with its type.
  lemma ItemLeads(context: FolderContext, video: NamedFile, id: int, at: int, resources: seq<StoredResource>,
                  first: int)
    requires NumberedAt(ItemFiles(context, video), at, resources, first)
    ensures Item(context, video, id, at).data.MediaItem?
    ensures ViewIn(Item(context, video, id, at), resources, first) == ViewFor(context, video)
  {
    hide ArtOf, ItemSubtitles, NormalizedTitle, DateOf, SortedByType, RefsTo, ArtworkRefs, ResourcePrefix, FilesOfType,
      FileTargets, ArtTargets, Infos, ArtInfos, ToResource, RefTo, InfoLinks, ArtFileLinks, InfoLink;
    var art, subtitles := ArtOf(context, video), ItemSubtitles(context, video);
    PartsNumbered(context, video, at, resources, first);
    hide NumberedAt, ItemFiles;
    ArtworkLeads(art, at + 1, resources, first);
    FilesLead(video, subtitles, at, at + 1 + |art|, resources, first);
  }

  // Every reference leads to a resource.
  ghost predicate AllLead(view: ObjectView) {
    && (view.ItemView? ==> forall i :: 0 <= i < |view.files| ==> view.files[i].target.Some?)
    && (forall i :: 0 <= i < |view.artwork| ==> view.artwork[i].target.Some?)
  }

  lemma ViewStays(media: MediaObject, resources: seq<StoredResource>, more: seq<StoredResource>, first: int)
    requires AllLead(ViewIn(media, resources, first))
    ensures ViewIn(media, resources + more, first) == ViewIn(media, resources, first)
  {
    hide ProtocolText, ClassText;
    var before, after := ViewIn(media, resources, first), ViewIn(media, resources + more, first);
    if media.data.MediaItem? {
      forall i | 0 <= i < |before.files| ensures before.files[i] == after.files[i] {
        assert before.files[i].target.Some?;
      }
    }
    forall i | 0 <= i < |before.artwork| ensures before.artwork[i] == after.artwork[i] {
      assert before.artwork[i].target.Some?;
    }
  }

  lemma ViewLeads(context: FolderContext, video: NamedFile)
    ensures AllLead(ViewFor(context, video))
  {
    hide ArtOf, ItemSubtitles, FilesOfType;
  }

  ghost predicate LeadsTo(media: MediaObject, resources: seq<StoredResource>, first: int, view: ObjectView) {
    media.data.MediaItem? && ViewIn(media, resources, first) == view
  }

  lemma {:induction false} ComposedLead(context: FolderContext, videos: seq<NamedFile>, nextObject: int,
                                        nextResource: int)
    ensures
      var composed := ComposeAll(context, videos, nextObject, nextResource);
      forall i :: 0 <= i < |videos| ==>
        LeadsTo(composed.items[i], Numbered(composed.files, nextResource), nextResource, ViewFor(context, videos[i]))
  {
    hide Item, ItemFiles, ViewIn, ViewFor, Numbered;
    if videos != [] {
      var n := |videos| - 1;
      assert videos[..n + 1] == videos;
      ComposeAllNext(context, videos, n, nextObject, nextResource);
      hide ComposeAll;
      var before := ComposeAll(context, videos[..n], nextObject, nextResource);
      var more := ItemFiles(context, videos[n]);
      ComposedLead(context, videos[..n], nextObject, nextResource);
      NumberedAppend(before.files, more, nextResource);
      forall i | 0 <= i < n
        ensures LeadsTo(before.items[i], Numbered(before.files + more, nextResource), nextResource,
                        ViewFor(context, videos[i]))
      {
        assert videos[..n][i] == videos[i];
        assert LeadsTo(before.items[i], Numbered(before.files, nextResource), nextResource,
                       ViewFor(context, videos[..n][i]));
        ViewLeads(context, videos[i]);
        ViewStays(before.items[i], Numbered(before.files, nextResource),
                  Numbered(more, nextResource + |before.files|), nextResource);
      }
      LastNumbered(before.files, more, nextResource);
      ItemLeads(context, videos[n], nextObject + n, nextResource + |before.files|,
                Numbered(before.files + more, nextResource), nextResource);
    }
  }

  lemma LastNumbered(before: seq<FileInfo>, more: seq<FileInfo>, first: int)
    ensures NumberedAt(more, first + |before|, Numbered(before + more, first), first)
  {
    hide Numbered;
    NumberedAre(before + more, first);
    assert forall i :: 0 <= i < |more| ==> (before + more)[|before| + i] == more[i];
  }

  function ViewsFor(context: FolderContext, videos: seq<NamedFile>): (views: seq<ObjectView>)
    ensures |views| == |videos|
  {
    seq(|videos|, i requires 0 <= i < |videos| => ViewFor(context, videos[i]))
  }


  // ----- The files of a folder, from its names -----

  predicate AllTyped(names: seq<string>) {
    forall i :: 0 <= i < |names| ==> GetMimeType(names[i]).Some?
  }

  function FilesOf(path: string, names: seq<string>): (files: seq<NamedFile>)
    requires AllTyped(names)
    ensures |files| == |names|
    ensures forall i :: 0 <= i < |files| ==> files[i] == FileOf(path, names[i])
  {
    seq(|names|, i requires 0 <= i < |names| => FileOf(path, names[i]))
  }

  lemma FilesOfCons(path: string, name: string, rest: seq<string>)
    requires AllTyped(rest) && GetMimeType(name).Some?
    ensures AllTyped([name] + rest) && FilesOf(path, [name] + rest) == [FileOf(path, name)] + FilesOf(path, rest)
  {
    hide FileOf, GetMimeType;
  }

  lemma FilesOfCut(path: string, names: seq<string>)
    requires AllTyped(names) && names != []
    ensures AllTyped(names[1..])
    ensures FilesOf(path, names)[0] == FileOf(path, names[0]) && FilesOf(path, names)[1..] == FilesOf(path, names[1..])
  {
    hide FileOf, GetMimeType;
  }

  lemma {:induction false} EmplaceInserts(path: string, names: seq<string>, name: string)
    requires AllTyped(names) && GetMimeType(name).Some?
    ensures AllTyped(Insert(names, name))
    ensures Emplace(FilesOf(path, names), FileOf(path, name)) == FilesOf(path, Insert(names, name))
  {
    hide GetMimeType, Less, FileOf, FilesOf, AllTyped;
    FilesOfCons(path, name, names);
    FileName0(path, name);
    if names != [] {
      FilesOfCut(path, names);
      FirstTyped(names);
      FileName0(path, names[0]);
      if !Less(name, names[0]) && names[0] != name {
        EmplaceInserts(path, names[1..], name);
        FilesOfCons(path, names[0], Insert(names[1..], name));
      }
    }
  }

  lemma FirstTyped(names: seq<string>)
    requires AllTyped(names) && names != []
    ensures GetMimeType(names[0]).Some?
  {
  }

  // The collected files are those of the names, in their order.
  lemma {:induction false} CollectedAre(path: string, entries: seq<FsEntry>, kind: MediaKind)
    ensures AllTyped(SortedNames(entries, kind))
    ensures Collect(path, entries, kind) == FilesOf(path, SortedNames(entries, kind))
  {
    hide GetMimeType, Emplace, Insert, IsNameOfKind, Join;
    if entries != [] {
      var front, last := entries[..|entries| - 1], entries[|entries| - 1];
      CollectedAre(path, front, kind);
      KindIs(last, kind);
      if IsMediaFile(last, kind) {
        EmplaceInserts(path, SortedNames(front, kind), last.name);
      }
    }
  }

  lemma LinksAre(path: string, name: string, artType: ArtworkType)
    requires GetMimeType(name).Some?
    ensures InfoLink(FileOf(path, name).info) == LinkTo(path, name)
    ensures ArtFileLink(ArtFile(FileOf(path, name).info, artType)) == ArtLinkTo(path, name, artType)
  {
    hide GetMimeType, MimeText, MimeTextByName;
    MimeTypeIs(name);
  }

  lemma {:induction false} MatchingLinks(path: string, names: seq<string>, prefix: string)
    requires AllTyped(names)
    ensures InfoLinks(Matching(FilesOf(path, names), prefix)) == LinksToStarting(path, names, prefix)
  {
    hide GetMimeType, LinkTo, InfoLink, FileOf;
    if names == [] {
      assert FilesOf(path, names) == [];
    } else {
      var files := FilesOf(path, names);
      assert files[1..] == FilesOf(path, names[1..]);
      assert files[0].name == names[0] by { FileName0(path, names[0]); }
      MatchingLinks(path, names[1..], prefix);
      LinksAre(path, names[0], Poster);
      if prefix <= names[0] {
        InfoLinksCons(files[0], Matching(files[1..], prefix));
      }
    }
  }

  lemma FileName0(path: string, name: string)
    requires GetMimeType(name).Some?
    ensures FileOf(path, name).name == name
  {
  }

  lemma InfoLinksCons(file: NamedFile, rest: seq<NamedFile>)
    ensures InfoLinks([file] + rest) == [InfoLink(file.info)] + InfoLinks(rest)
  {
  }

  lemma ArtFileLinksCons(file: ArtFile, rest: seq<ArtFile>)
    ensures ArtFileLinks([file] + rest) == [ArtFileLink(file)] + ArtFileLinks(rest)
  {
  }

  lemma ArtFileLinksAppend(a: seq<ArtFile>, b: seq<ArtFile>)
    ensures ArtFileLinks(a + b) == ArtFileLinks(a) + ArtFileLinks(b)
  {
  }

  lemma {:induction false} ClassifiedCons(file: NamedFile, rest: seq<NamedFile>, prefix: nat)
    requires prefix <= |file.name| && forall f :: f in rest ==> prefix <= |f.name|
    ensures forall f :: f in [file] + rest ==> prefix <= |f.name|
    ensures Classified([file] + rest, prefix) == Classified([file], prefix) + Classified(rest, prefix)
    decreases |rest|
  {
    hide ClassifyArtwork;
    if rest == [] {
      assert [file] + rest == [file];
    } else {
      var n := |rest| - 1;
      assert ([file] + rest)[..n + 1] == [file] + rest[..n];
      ClassifiedCons(file, rest[..n], prefix);
    }
  }

  lemma ClassifiedOne(file: NamedFile, prefix: nat)
    requires prefix <= |file.name|
    ensures Classified([file], prefix) ==
              match ClassifyArtwork(file.name[prefix..])
              case Some(artType) => [ArtFile(file.info, artType)]
              case None => []
  {
    hide ClassifyArtwork;
    assert [file][..0] == [];
  }

  lemma {:induction false} OfTypeAppend(a: seq<ArtFile>, b: seq<ArtFile>, artType: ArtworkType)
    ensures FilesOfType(a + b, artType) == FilesOfType(a, artType) + FilesOfType(b, artType)
    decreases |b|
  {
    if b == [] {
      assert a + b == a;
    } else {
      var n := |b| - 1;
      assert (a + b)[..|a| + n] == a + b[..n];
      OfTypeAppend(a, b[..n], artType);
    }
  }

  // What kind of artwork the rest of a name makes a file.
  lemma ClassifiesAs(name: string, prefix: string, artType: ArtworkType)
    requires prefix <= name
    ensures ClassifyArtwork(name[|prefix|..]) == Some(artType) <==> IsArtOfType(name, prefix, artType)
  {
    ContainsIs(name[|prefix|..], "poster");
    ContainsIs(name[|prefix|..], "thumb");
  }

  // A file's own part of the artwork of a type.
  lemma OneOfType(path: string, name: string, prefix: string, artType: ArtworkType)
    requires GetMimeType(name).Some? && prefix <= name
    ensures |prefix| <= |FileOf(path, name).name|
    ensures ArtFileLinks(FilesOfType(Classified([FileOf(path, name)], |prefix|), artType))
            == if IsArtOfType(name, prefix, artType) then [ArtLinkTo(path, name, artType)] else []
  {
    var file := FileOf(path, name);
    FileName0(path, name);
    hide GetMimeType, FileOf, ClassifyArtwork, IsArtOfType, ArtLinkTo, ArtFileLink;
    ClassifiedOne(file, |prefix|);
    ClassifiesAs(name, prefix, artType);
    LinksAre(path, name, artType);
    var art := ArtFile(file.info, artType);
    assert [art][..0] == [];
    match ClassifyArtwork(name[|prefix|..])
    case Some(other) =>
      assert [ArtFile(file.info, other)][..0] == [];
    case None =>
  }

  // The links of a type to an item's own artwork.
  function OwnLinks(files: seq<NamedFile>, prefix: string, artType: ArtworkType): seq<ArtLink> {
    ArtFileLinks(FilesOfType(OwnArtwork(files, prefix), artType))
  }

  lemma OwnLinksCons(file: NamedFile, rest: seq<NamedFile>, prefix: string, artType: ArtworkType)
    requires prefix <= file.name
    ensures OwnLinks([file] + rest, prefix, artType)
            == ArtFileLinks(FilesOfType(Classified([file], |prefix|), artType)) + OwnLinks(rest, prefix, artType)
  {
    assert ([file] + rest)[1..] == rest;
    assert Matching([file] + rest, prefix) == [file] + Matching(rest, prefix);
    MatchingHavePrefix([file] + rest, prefix);
    MatchingHavePrefix(rest, prefix);
    hide Matching, Classified, FilesOfType, ArtFileLinks;
    ClassifiedCons(file, Matching(rest, prefix), |prefix|);
    OfTypeAppend(Classified([file], |prefix|), OwnArtwork(rest, prefix), artType);
    ArtFileLinksAppend(FilesOfType(Classified([file], |prefix|), artType),
                       FilesOfType(OwnArtwork(rest, prefix), artType));
  }

  lemma OwnLinksSkip(file: NamedFile, rest: seq<NamedFile>, prefix: string, artType: ArtworkType)
    requires !(prefix <= file.name)
    ensures OwnLinks([file] + rest, prefix, artType) == OwnLinks(rest, prefix, artType)
  {
    hide Classified, FilesOfType, ArtFileLinks;
    assert ([file] + rest)[1..] == rest;
    assert Matching([file] + rest, prefix) == Matching(rest, prefix);
  }

  lemma {:induction false} OwnLinksAre(path: string, names: seq<string>, prefix: string, artType: ArtworkType)
    requires AllTyped(names)
    ensures OwnLinks(FilesOf(path, names), prefix, artType) == ArtLinksOfType(path, names, prefix, artType)
  {
    hide GetMimeType, FileOf, ClassifyArtwork, ArtLinkTo, OwnLinks, Classified, FilesOfType, ArtFileLinks, IsArtOfType;
    if names == [] {
      assert FilesOf(path, names) == [];
      NoArtFiles(prefix, artType);
    } else {
      var file, rest := FileOf(path, names[0]), FilesOf(path, names[1..]);
      assert FilesOf(path, names) == [file] + rest;
      OwnLinksAre(path, names[1..], prefix, artType);
      FileName0(path, names[0]);
      if prefix <= names[0] {
        OwnLinksCons(file, rest, prefix, artType);
        OneOfType(path, names[0], prefix, artType);
      } else {
        OwnLinksSkip(file, rest, prefix, artType);
        NotArt(names[0], prefix, artType);
      }
    }
  }

  lemma NotArt(name: string, prefix: string, artType: ArtworkType)
    requires !(prefix <= name)
    ensures !IsArtOfType(name, prefix, artType)
  {
  }

  lemma NoArtFiles(prefix: string, artType: ArtworkType)
    ensures OwnLinks([], prefix, artType) == []
  {
  }

  lemma {:induction false} FoundFile(path: string, names: seq<string>, name: string)
    requires AllTyped(names)
    ensures FindFile(FilesOf(path, names), name).Some? <==> name in names
    ensures name in names ==> FindFile(FilesOf(path, names), name) == Some(FileOf(path, name).info)
  {
    hide GetMimeType, Join;
    if names != [] {
      assert FilesOf(path, names)[1..] == FilesOf(path, names[1..]);
      FoundFile(path, names[1..], name);
    }
  }

  lemma ArtNamesAreImages()
    ensures EndsWith("poster.jpg", ".jpg") && EndsWith("folder.jpg", ".jpg")
  {
  }

  // The artwork of a folder.
  lemma FolderArtIs(path: string, entries: seq<FsEntry>)
    ensures var art := FolderArtwork(Collect(path, entries, ImageFile));
            FolderArt(path, entries) == if art.Some? then [ArtFileLink(art.value)] else []
  {
    var names := SortedNames(entries, ImageFile);
    CollectedAre(path, entries, ImageFile);
    SortedNamesAre(entries, ImageFile);
    FoundFile(path, names, "poster.jpg");
    FoundFile(path, names, "folder.jpg");
    hide EndsWith;
    ArtNamesAreImages();
    hide GetMimeType, FileOf, ArtLinkTo, ArtFileLink, Collect, SortedNames, FindFile, EndsWith;
    if "poster.jpg" in names {
      LinksAre(path, "poster.jpg", Poster);
    } else if "folder.jpg" in names {
      LinksAre(path, "folder.jpg", Thumbnail);
    }
  }

  // ----- The item of a video -----

  // A context built from a directory, with the parts that concern one item.
  lemma ContextIs(path: string, entries: seq<FsEntry>, config: LibraryConfig, parent: int)
    ensures var context := ContextOf(path, entries, config, parent);
            && context.folderName == FolderNameOf(path, entries, config) && context.parent == parent
            && context.artwork == Collect(path, entries, ImageFile)
            && context.subtitles == Collect(path, entries, TextFile)
  {
    hide Collect, SortedNames, Stem, FileName;
    CollectedAre(path, entries, VideoFile);
  }

  lemma VideoStem(name: string)
    requires IsVideoName(name)
    ensures 4 < |name| && Stem(name) == name[..|name| - 4]
  {
    hide Stem, Extension;
    ExtensionEnds(name, ".mkv");
    ExtensionEnds(name, ".mp4");
    ExtensionEnds(name, ".avi");
    ExtensionEnds(name, ".mpg");
  }

  // The artwork of an item: its own by type, or its folder's.
  lemma ItemArtIs(path: string, entries: seq<FsEntry>, prefix: string)
    ensures var images := SortedNames(entries, ImageFile);
            var own := ArtLinksOfType(path, images, prefix, Poster) + ArtLinksOfType(path, images, prefix, Thumbnail);
            var art := ItemArtwork(Collect(path, entries, ImageFile), prefix);
            ArtFileLinks(FilesOfType(art, Poster) + FilesOfType(art, Thumbnail))
            == if own == [] then FolderArt(path, entries) else own
  {
    var files, images := Collect(path, entries, ImageFile), SortedNames(entries, ImageFile);
    CollectedAre(path, entries, ImageFile);
    OwnLinksAre(path, images, prefix, Poster);
    OwnLinksAre(path, images, prefix, Thumbnail);
    FolderArtIs(path, entries);
    hide Collect, SortedNames, ArtLinksOfType, FolderArt, FolderArtwork, ArtFileLink, OwnArtwork, FilesOf;
    var own := OwnArtwork(files, prefix);
    AllOfSomeType(own);
    ArtFileLinksAppend(FilesOfType(own, Poster), FilesOfType(own, Thumbnail));
    if FolderArtwork(files).Some? {
      OneFileLinks(FolderArtwork(files).value);
    }
    NoFileLinks();
  }

  // Every file is a poster or a thumbnail.
  lemma {:induction false} AllOfSomeType(art: seq<ArtFile>)
    ensures art == [] <==> FilesOfType(art, Poster) + FilesOfType(art, Thumbnail) == []
  {
    if art != [] {
      var last := art[|art| - 1];
      assert last.artType == Poster || last.artType == Thumbnail;
    }
  }

  lemma OneFileLinks(file: ArtFile)
    ensures ArtFileLinks(FilesOfType([file], Poster) + FilesOfType([file], Thumbnail)) == [ArtFileLink(file)]
  {
    hide ArtFileLink;
    assert [file][..0] == [];
    assert FilesOfType([file], Poster) + FilesOfType([file], Thumbnail) == [file];
  }

  lemma NoFileLinks()
    ensures ArtFileLinks(FilesOfType([], Poster) + FilesOfType([], Thumbnail)) == []
  {
  }

  lemma ViewForIs(context: FolderContext, video: NamedFile)
    ensures
      var prefix := ResourcePrefix(context.folderName, video.name);
      var title := NormalizedTitle(if context.folderName == "" then prefix else context.folderName);
      var art := ItemArtwork(context.artwork, prefix);
      ViewFor(context, video) ==
        ItemView("object.item.videoItem.movie", title.text, DateOf(title.year),
                 [InfoLink(video.info)] + InfoLinks(Matching(context.subtitles, prefix)),
                 ArtFileLinks(FilesOfType(art, Poster) + FilesOfType(art, Thumbnail)))
  {
    hide ResourcePrefix, NormalizedTitle, ItemArtwork, DateOf, InfoLink, InfoLinks, Matching, ArtFileLinks, FilesOfType;
  }

  lemma ItemOfIs(path: string, entries: seq<FsEntry>, config: LibraryConfig, video: string)
    requires 4 <= |video|
    ensures
      var folderName, stem := FolderNameOf(path, entries, config), video[..|video| - 4];
      var prefix := if folderName == "" then stem else "";
      var title := NormalizedTitle(if folderName == "" then stem else folderName);
      var images := SortedNames(entries, ImageFile);
      var own := ArtLinksOfType(path, images, prefix, Poster) + ArtLinksOfType(path, images, prefix, Thumbnail);
      ItemOf(path, entries, config, video) ==
        ItemView("object.item.videoItem.movie", title.text, DateOf(title.year),
                 [LinkTo(path, video)] + LinksToStarting(path, SortedNames(entries, TextFile), prefix),
                 if own == [] then FolderArt(path, entries) else own)
  {
    hide FolderNameOf, NormalizedTitle, DaysFromCivil, SortedNames, ArtLinksOfType, LinkTo, LinksToStarting, FolderArt;
  }

  // An item leads to what is expected of the video's name.
  lemma ViewIsExpected(path: string, entries: seq<FsEntry>, config: LibraryConfig, parent: int, name: string)
    requires IsVideoName(name) && GetMimeType(name).Some?
    ensures 4 <= |name|
    ensures ViewFor(ContextOf(path, entries, config, parent), FileOf(path, name)) == ItemOf(path, entries, config, name)
  {
    hide *;
    var context, video := ContextOf(path, entries, config, parent), FileOf(path, name);
    ContextIs(path, entries, config, parent);
    VideoStem(name);
    FileName0(path, name);
    LinksAre(path, name, Poster);
    var prefix := if context.folderName == "" then name[..|name| - 4] else "";
    PrefixIs(context.folderName, name);
    ItemArtIs(path, entries, prefix);
    CollectedAre(path, entries, TextFile);
    MatchingLinks(path, SortedNames(entries, TextFile), prefix);
    ViewForIs(context, video);
    ItemOfIs(path, entries, config, name);
  }

  lemma PrefixIs(folderName: string, name: string)
    ensures ResourcePrefix(folderName, name) == if folderName == "" then Stem(name) else ""
  {
  }

  // ----- The batches of a folder -----

  lemma OnePlanViews(batch: Batch, first: int)
    ensures PlanViews([batch], first) == Views(batch.items, batch.resources, first)
    ensures PlanViews([], first) == []
  {
    hide Views;
    assert [batch][1..] == [];
  }

  lemma ItemNodesAre(path: string, entries: seq<FsEntry>, config: LibraryConfig)
    ensures var names, nodes := SortedNames(entries, VideoFile), ItemNodes(path, entries, config);
            forall i :: 0 <= i < |names| ==>
              4 <= |names[i]| && nodes[i] == Node(ItemOf(path, entries, config, names[i]), [])
  {
    hide ItemOf, SortedNames;
    SortedNamesAre(entries, VideoFile);
    var names := SortedNames(entries, VideoFile);
    forall i | 0 <= i < |names| ensures 4 <= |names[i]| {
      assert names[i] in names;
    }
  }

  // One composed item, placed.
  lemma ComposedItemIs(path: string, entries: seq<FsEntry>, config: LibraryConfig, parent: int,
                       nextObject: int, nextResource: int, i: nat)
    requires i < |SortedNames(entries, VideoFile)|
    ensures
      var batch := ItemsBatch(ContextOf(path, entries, config, parent), Collect(path, entries, VideoFile),
                              nextObject, nextResource);
      && |batch.items| == |SortedNames(entries, VideoFile)|
      && Views(batch.items, batch.resources, nextResource)[i]
         == Placed(nextObject + i, parent, ItemNodes(path, entries, config)[i].view)
  {
    var names := SortedNames(entries, VideoFile);
    var videos := Collect(path, entries, VideoFile);
    var context := ContextOf(path, entries, config, parent);
    CollectedAre(path, entries, VideoFile);
    SortedNamesAre(entries, VideoFile);
    ItemNodesAre(path, entries, config);
    assert names[i] in names;
    assert videos[i] == FileOf(path, names[i]);
    ContextIs(path, entries, config, parent);
    hide Collect, SortedNames, ContextOf, ComposeAll, Numbered, ViewIn, ViewFor, ItemOf, FileOf, GetMimeType, ItemNodes,
      Partition, NewObject;
    ComposedAreOk(context, videos, nextObject, nextResource);
    ComposedLead(context, videos, nextObject, nextResource);
    ViewIsExpected(path, entries, config, parent, names[i]);
    var composed := ComposeAll(context, videos, nextObject, nextResource);
    assert LeadsTo(composed.items[i], Numbered(composed.files, nextResource), nextResource,
                   ViewFor(context, videos[i]));
  }

  // The items of a directory are the expected ones, numbered in order.
  lemma ItemsBatchViews(path: string, entries: seq<FsEntry>, config: LibraryConfig, parent: int,
                        nextObject: int, nextResource: int)
    ensures
      var batch := ItemsBatch(ContextOf(path, entries, config, parent), Collect(path, entries, VideoFile),
                              nextObject, nextResource);
      Views(batch.items, batch.resources, nextResource)
      == Preorder(ItemNodes(path, entries, config), parent, nextObject)
  {
    var nodes := ItemNodes(path, entries, config);
    ItemNodesAre(path, entries, config);
    PreorderOfLeaves(nodes, parent, nextObject);
    var batch := ItemsBatch(ContextOf(path, entries, config, parent), Collect(path, entries, VideoFile),
                            nextObject, nextResource);
    CollectedAre(path, entries, VideoFile);
    hide Collect, SortedNames, ContextOf, ItemsBatch, ItemNodes, Views, Preorder, ItemOf;
    forall i | 0 <= i < |nodes|
      ensures Views(batch.items, batch.resources, nextResource)[i] == Preorder(nodes, parent, nextObject)[i]
    {
      ComposedItemIs(path, entries, config, parent, nextObject, nextResource, i);
    }
    ItemCount(path, entries, config, parent, nextObject, nextResource);
  }

  lemma ItemCount(path: string, entries: seq<FsEntry>, config: LibraryConfig, parent: int,
                  nextObject: int, nextResource: int)
    ensures
      var batch := ItemsBatch(ContextOf(path, entries, config, parent), Collect(path, entries, VideoFile),
                              nextObject, nextResource);
      |batch.items| == |SortedNames(entries, VideoFile)|
  {
    hide Collect, SortedNames, ContextOf, ComposeAll;
    CollectedAre(path, entries, VideoFile);
  }

  // A collection has the stem of its directory's name, and the folder's artwork.
  lemma CollectionBatchViews(path: string, entries: seq<FsEntry>, parent: int, nextObject: int, nextResource: int)
    ensures
      var batch := CollectionBatch(path, FolderArtwork(Collect(path, entries, ImageFile)), parent,
                                   nextObject, nextResource);
      Views(batch.items, batch.resources, nextResource)
      == [Placed(nextObject, parent, FolderView("object.container", Stem(FileName(path)), FolderArt(path, entries)))]
  {
    FolderArtIs(path, entries);
    hide Stem, FileName, Collect, FolderArt, FolderArtwork;
    var art := FolderArtwork(Collect(path, entries, ImageFile));
    var batch := CollectionBatch(path, art, parent, nextObject, nextResource);
    var item := batch.items[0];
    if art.Some? {
      NumberedAre([art.value.info], nextResource);
      assert [art.value.info][0] == art.value.info;
      assert item.artwork == [Artwork(ResourceKey(nextResource), art.value.artType)];
      assert batch.resources == [StoredResource(nextResource, ToResource(art.value.info))];
      assert ArtTargets(item.artwork, batch.resources, nextResource) == [ArtFileLink(art.value)];
    } else {
      assert ArtTargets(item.artwork, batch.resources, nextResource) == [];
    }
  }

  lemma CollectionIs(path: string, entries: seq<FsEntry>, config: LibraryConfig)
    ensures MakesCollection(config, |Collect(path, entries, VideoFile)|,
                            FolderArtwork(Collect(path, entries, ImageFile)), HasSubdirectory(entries))
            <==> IsCollection(path, entries, config.useCollections)
    ensures FolderArtwork(Collect(path, entries, ImageFile)).Some? <==> FolderArt(path, entries) != []
  {
    hide Collect, SortedNames, FolderArtwork, FolderArt;
    CollectedAre(path, entries, VideoFile);
    FolderArtIs(path, entries);
  }

  // What a directory itself writes, and where its subdirectories go.
  lemma PlanFolderViews(path: string, entries: seq<FsEntry>, config: LibraryConfig,
                        parent: int, nextObject: int, nextResource: int)
    ensures
      var own := PlanFolder(path, entries, config, parent, nextObject, nextResource);
      var items := ItemNodes(path, entries, config);
      var folder := FolderView("object.container", Stem(FileName(path)), FolderArt(path, entries));
      if IsCollection(path, entries, config.useCollections) then
        && PlanViews(own.batches, nextResource)
           == [Placed(nextObject, parent, folder)] + Preorder(items, nextObject, nextObject + 1)
        && own.childParent == if FolderArt(path, entries) == [] then parent else nextObject
      else
        PlanViews(own.batches, nextResource) == Preorder(items, parent, nextObject) && own.childParent == parent
  {
    hide PlanFolder, PlanCollection, PlanItems, PlanViews, Items, Resources, Preorder, ItemNodes, FolderArt,
      IsCollection, Stem, FileName;
    PlanFolderParts(path, entries, config, parent, nextObject, nextResource);
    var first := PlanCollection(path, entries, config, parent, nextObject, nextResource);
    var no, nr := nextObject + |Items(first.batches)|, nextResource + |Resources(first.batches)|;
    PlanViewsAppend(first.batches, PlanItems(path, entries, config, first.itemParent, no, nr), nextResource);
    PlanCollectionViews(path, entries, config, parent, nextObject, nextResource);
    PlanItemsViews(path, entries, config, first.itemParent, no, nr);
  }

  lemma PlanCollectionViews(path: string, entries: seq<FsEntry>, config: LibraryConfig,
                            parent: int, nextObject: int, nextResource: int)
    ensures
      var first := PlanCollection(path, entries, config, parent, nextObject, nextResource);
      var folder := FolderView("object.container", Stem(FileName(path)), FolderArt(path, entries));
      if IsCollection(path, entries, config.useCollections) then
        && PlanViews(first.batches, nextResource) == [Placed(nextObject, parent, folder)]
        && |Items(first.batches)| == 1 && first.itemParent == nextObject
        && first.childParent == if FolderArt(path, entries) == [] then parent else nextObject
      else
        && PlanViews(first.batches, nextResource) == [] && |Items(first.batches)| == 0
        && first.itemParent == parent && first.childParent == parent
  {
    CollectionIs(path, entries, config);
    hide Collect, CollectionBatch, FolderArtwork, MakesCollection, HasSubdirectory, PlanViews, Views, IsCollection,
      FolderArt, Stem, FileName;
    var batch := CollectionBatch(path, FolderArtwork(Collect(path, entries, ImageFile)), parent,
                                 nextObject, nextResource);
    CollectionBatchViews(path, entries, parent, nextObject, nextResource);
    OnePlanViews(batch, nextResource);
    OneItems(batch);
    assert |Views(batch.items, batch.resources, nextResource)| == |batch.items|;
  }

  lemma OneItems(batch: Batch)
    ensures Items([batch]) == batch.items && Items([]) == []
  {
    assert [batch][1..] == [];
  }

  lemma PlanItemsViews(path: string, entries: seq<FsEntry>, config: LibraryConfig,
                       parent: int, nextObject: int, nextResource: int)
    ensures PlanViews(PlanItems(path, entries, config, parent, nextObject, nextResource), nextResource)
            == Preorder(ItemNodes(path, entries, config), parent, nextObject)
  {
    CollectedAre(path, entries, VideoFile);
    hide Collect, ItemsBatch, ContextOf, PlanViews, Views, SortedNames, ItemOf;
    ItemsBatchViews(path, entries, config, parent, nextObject, nextResource);
    OnePlanViews(ItemsBatch(ContextOf(path, entries, config, parent), Collect(path, entries, VideoFile),
                            nextObject, nextResource), nextResource);
  }

  // ----- Whole walks -----

  ghost predicate Numbers(done: Progress, first: int) {
    done.nextResource == first + |Resources(done.batches)|
  }

  lemma ThenViews(done: Progress, more: seq<Batch>, first: int)
    requires Numbers(done, first)
    ensures Numbers(done.Then(more), first)
    ensures PlanViews(done.Then(more).batches, first)
            == PlanViews(done.batches, first) + PlanViews(more, done.nextResource)
    ensures done.Then(more).nextObject == done.nextObject + |PlanViews(more, done.nextResource)|
  {
    hide PlanViews, Resources, Items;
    PlanViewsAppend(done.batches, more, first);
    ItemsAppend(done.batches, more);
    PlanViewsCount(more, done.nextResource);
  }

  lemma {:induction false} PlanViewsCount(batches: seq<Batch>, first: int)
    ensures |PlanViews(batches, first)| == |Items(batches)|
    decreases |batches|
  {
    hide Views;
    if batches != [] {
      PlanViewsCount(batches[1..], first + |batches[0].resources|);
    }
  }

  // The item nodes do not depend on whether collections are made.
  lemma SameItems(path: string, entries: seq<FsEntry>, config: LibraryConfig, collections: bool)
    ensures ItemNodes(path, entries, config.(useCollections := collections)) == ItemNodes(path, entries, config)
  {
    var other := config.(useCollections := collections);
    hide SortedNames, LinksToStarting, ArtLinksOfType, FolderArt, LinkTo, NormalizedTitle, DaysFromCivil;
    ItemNodesAre(path, entries, config);
    ItemNodesAre(path, entries, other);
    var names := SortedNames(entries, VideoFile);
    assert FolderNameOf(path, entries, config) == FolderNameOf(path, entries, other);
    forall i | 0 <= i < |names| ensures ItemNodes(path, entries, config)[i] == ItemNodes(path, entries, other)[i] {}
  }

  // A walk has added the objects of a forest, numbered in preorder.
  ghost predicate AddsForest(done: Progress, after: Progress, forest: seq<Node>, parent: int, first: int) {
    && Numbers(after, first)
    && after.nextObject == done.nextObject + Count(forest)
    && PlanViews(after.batches, first) == PlanViews(done.batches, first) + Preorder(forest, parent, done.nextObject)
  }

  // The objects a walk writes are those expected of the tree, numbered in preorder.
  lemma {:induction false} WalkTreeViews(config: LibraryConfig, path: string, entries: seq<FsEntry>, collections: bool,
                                         parent: int, done: Progress, first: int)
    requires Numbers(done, first)
    ensures AddsForest(done, WalkTree(Planner(config), path, entries, collections, config.useCollections, parent, done),
                       Forest(path, entries, config, collections), parent, first)
    decreases entries, 1
  {
    var own := PlanFolder(path, entries, config.(useCollections := collections),
                          parent, done.nextObject, done.nextResource);
    var next := done.Then(own.batches);
    var after := WalkTree(Planner(config), path, entries, collections, config.useCollections, parent, done);
    WalkIs(config, path, entries, collections, parent, done);
    PlanFolderViews(path, entries, config.(useCollections := collections), parent, done.nextObject, done.nextResource);
    SameItems(path, entries, config, collections);
    hide WalkTree, WalkSubfolders, PlanFolder, PlanViews, Items, Resources, Preorder, Count, ItemNodes, FolderArt,
      IsCollection, Stem, FileName, ForestBelow, Planner;
    ThenViews(done, own.batches, first);
    WalkSubfoldersViews(config, path, entries, own.childParent, next, first);
    FolderForest(path, entries, config, collections, parent, done.nextObject);
    assert PlanViews(next.batches, first) + Preorder(ForestBelow(path, entries, config), own.childParent, next.nextObject)
           == PlanViews(done.batches, first) + (PlanViews(own.batches, done.nextResource)
              + Preorder(ForestBelow(path, entries, config), own.childParent, next.nextObject));
  }

  lemma WalkIs(config: LibraryConfig, path: string, entries: seq<FsEntry>, collections: bool, parent: int,
               done: Progress)
    ensures var own := PlanFolder(path, entries, config.(useCollections := collections),
                                  parent, done.nextObject, done.nextResource);
            WalkTree(Planner(config), path, entries, collections, config.useCollections, parent, done)
            == WalkSubfolders(Planner(config), path, entries, config.useCollections, own.childParent,
                              done.Then(own.batches))
  {
    hide PlanFolder, WalkSubfolders;
  }

  // The preorder of a directory's forest: its own objects, then those below.
  lemma FolderForest(path: string, entries: seq<FsEntry>, config: LibraryConfig, collections: bool, parent: int, n: int)
    ensures
      var items, below := ItemNodes(path, entries, config), ForestBelow(path, entries, config);
      var art := FolderArt(path, entries);
      var folder := FolderView("object.container", Stem(FileName(path)), art);
      var forest := Forest(path, entries, config, collections);
      if IsCollection(path, entries, collections) then
        && |Preorder(items, n, n + 1)| == Count(items)
        && Count(forest) == 1 + Count(items) + Count(below)
        && Preorder(forest, parent, n)
           == ([Placed(n, parent, folder)] + Preorder(items, n, n + 1))
              + Preorder(below, if art == [] then parent else n, n + 1 + Count(items))
      else
        && |Preorder(items, parent, n)| == Count(items)
        && Count(forest) == Count(items) + Count(below)
        && Preorder(forest, parent, n) == Preorder(items, parent, n) + Preorder(below, parent, n + Count(items))
  {
    hide *;
    var items, below := ItemNodes(path, entries, config), ForestBelow(path, entries, config);
    var folder := FolderView("object.container", Stem(FileName(path)), FolderArt(path, entries));
    ForestIs(path, entries, config, collections);
    BesideIs(items, below, parent, n);
    FolderBesideIs(folder, items, below, parent, n);
    FolderAroundIs(folder, items, below, parent, n);
  }

  lemma ForestIs(path: string, entries: seq<FsEntry>, config: LibraryConfig, collections: bool)
    ensures
      var items, below := ItemNodes(path, entries, config), ForestBelow(path, entries, config);
      var art := FolderArt(path, entries);
      var folder := FolderView("object.container", Stem(FileName(path)), art);
      Forest(path, entries, config, collections)
      == if !IsCollection(path, entries, collections) then items + below
         else if art == [] then [Node(folder, items)] + below
         else [Node(folder, items + below)]
  {
    hide ItemNodes, ForestBelow, FolderArt, IsCollection, Stem, FileName;
  }

  lemma BesideIs(items: seq<Node>, below: seq<Node>, parent: int, n: int)
    ensures |Preorder(items, parent, n)| == Count(items)
    ensures Count(items + below) == Count(items) + Count(below)
    ensures Preorder(items + below, parent, n)
            == Preorder(items, parent, n) + Preorder(below, parent, n + Count(items))
  {
    hide *;
    PreorderAppend(items, below, parent, n);
  }

  // A collection without artwork has what is below beside it.
  lemma FolderBesideIs(folder: ObjectView, items: seq<Node>, below: seq<Node>, parent: int, n: int)
    ensures Count([Node(folder, items)] + below) == 1 + Count(items) + Count(below)
    ensures Preorder([Node(folder, items)] + below, parent, n)
            == ([Placed(n, parent, folder)] + Preorder(items, n, n + 1))
               + Preorder(below, parent, n + 1 + Count(items))
  {
    hide *;
    PreorderAppend([Node(folder, items)], below, parent, n);
    PreorderOne(Node(folder, items), parent, n);
  }

  // A collection with artwork has it inside.
  lemma FolderAroundIs(folder: ObjectView, items: seq<Node>, below: seq<Node>, parent: int, n: int)
    ensures Count([Node(folder, items + below)]) == 1 + Count(items) + Count(below)
    ensures |Preorder(items, n, n + 1)| == Count(items)
    ensures Preorder([Node(folder, items + below)], parent, n)
            == ([Placed(n, parent, folder)] + Preorder(items, n, n + 1))
               + Preorder(below, n, n + 1 + Count(items))
  {
    hide *;
    PreorderOne(Node(folder, items + below), parent, n);
    PreorderAppend(items, below, n, n + 1);
    Associative([Placed(n, parent, folder)], Preorder(items, n, n + 1), Preorder(below, n, n + 1 + Count(items)));
  }

  lemma {:induction false} WalkSubfoldersViews(config: LibraryConfig, path: string, entries: seq<FsEntry>,
                                               parent: int, done: Progress, first: int)
    requires Numbers(done, first)
    ensures AddsForest(done, WalkSubfolders(Planner(config), path, entries, config.useCollections, parent, done),
                       ForestBelow(path, entries, config), parent, first)
    decreases entries, 0
  {
    hide Planner, PlanViews, Numbers, Forest, Preorder, Count, WalkTree;
    if entries == [] {
      PreorderNone(parent, done.nextObject);
    } else {
      var front, last := entries[..|entries| - 1], entries[|entries| - 1];
      if last.Directory? {
        var inside := Join(path, last.name);
        assert inside == PathIn(path, last.name);
        WalkTreeViews(config, inside, last.entries, config.useCollections, parent, done, first);
        var next := WalkTree(Planner(config), inside, last.entries, config.useCollections,
                             config.useCollections, parent, done);
        WalkSubfoldersViews(config, path, front, parent, next, first);
        PreorderAppend(Forest(inside, last.entries, config, config.useCollections), ForestBelow(path, front, config),
                       parent, done.nextObject);
      } else {
        WalkSubfoldersViews(config, path, front, parent, done, first);
        assert ForestBelow(path, entries, config) == ForestBelow(path, front, config);
      }
    }
  }
}
