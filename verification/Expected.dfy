// What a scan is to leave in the library, told from the directory tree and the
// text of the names in it: a forest of collections and items, whose objects are
// numbered in preorder.
module Expected {
  import opened Wrappers
  import opened Text
  import opened Titles
  import opened Calendar
  import opened Records
  import opened Folders
  import ScanPlan

  // ----- What an object shows -----

  // A file that a reference leads to.
  datatype Target = Target(path: string, mimeType: string)

  datatype FileLink = FileLink(target: Option<Target>, protocolInfo: string)

  datatype ArtLink = ArtLink(target: Option<Target>, artType: ArtworkType)

  // An object with every reference replaced by what it leads to.
  datatype ObjectView =
    | ItemView(upnpClass: string, title: string, date: int, files: seq<FileLink>, artwork: seq<ArtLink>)
    | FolderView(upnpClass: string, title: string, artwork: seq<ArtLink>)

  // ----- The files of a directory -----

  function PathIn(path: string, name: string): string {
    if path == "" || path[|path| - 1] == '/' then path + name else path + "/" + name
  }

  function Insert(names: seq<string>, name: string): seq<string> {
    if names == [] || Less(name, names[0]) then [name] + names
    else if names[0] == name then names
    else [names[0]] + Insert(names[1..], name)
  }

  // The names of the files of a kind, in order.
  function SortedNames(entries: seq<FsEntry>, kind: MediaKind): seq<string> {
    if entries == [] then []
    else
      var last := entries[|entries| - 1];
      var before := SortedNames(entries[..|entries| - 1], kind);
      if last.RegularFile? && IsNameOfKind(last.name, kind) then Insert(before, last.name) else before
  }

  ghost predicate InOrder(names: seq<string>) {
    forall i, j :: 0 <= i < j < |names| ==> Less(names[i], names[j])
  }

  lemma {:induction false} InsertMembers(names: seq<string>, name: string)
    ensures forall n :: n in Insert(names, name) <==> n in names || n == name
  {
    if names != [] {
      InsertMembers(names[1..], name);
      assert forall n :: n in names <==> n == names[0] || n in names[1..];
    }
  }

  lemma {:induction false} InsertKeepsOrder(names: seq<string>, name: string)
    requires InOrder(names)
    ensures InOrder(Insert(names, name))
  {
    if names == [] {
    } else if Less(name, names[0]) {
      forall i | 0 < i < |names| ensures Less(name, names[i]) {
        LessTransitive(name, names[0], names[i]);
      }
    } else if names[0] != name {
      LessTotal(name, names[0]);
      InsertKeepsOrder(names[1..], name);
      InsertMembers(names[1..], name);
      var tail := Insert(names[1..], name);
      forall j | 0 <= j < |tail| ensures Less(names[0], tail[j]) {
        assert tail[j] in tail;
        if tail[j] in names[1..] {
          var i :| 0 <= i < |names[1..]| && names[1..][i] == tail[j];
          assert names[i + 1] == tail[j];
        }
      }
    }
  }

  // The list is in strictly ascending order and holds those names and no other,
  // which leaves no other list.
  lemma {:induction false} SortedNamesAre(entries: seq<FsEntry>, kind: MediaKind)
    ensures InOrder(SortedNames(entries, kind))
    ensures forall n :: n in SortedNames(entries, kind) <==> RegularFile(n) in entries && IsNameOfKind(n, kind)
  {
    if entries != [] {
      var front, last := entries[..|entries| - 1], entries[|entries| - 1];
      SortedNamesAre(front, kind);
      InsertMembers(SortedNames(front, kind), last.name);
      InsertKeepsOrder(SortedNames(front, kind), last.name);
      assert forall e :: e in entries <==> e in front || e == last;
    }
  }

  // ----- What an item leads to -----

  function LinkTo(path: string, name: string): FileLink {
    FileLink(Some(Target(PathIn(path, name), MimeTextByName(name))), "http-get:*:" + MimeTextByName(name) + ":*")
  }

  function ArtLinkTo(path: string, name: string, artType: ArtworkType): ArtLink {
    ArtLink(Some(Target(PathIn(path, name), MimeTextByName(name))), artType)
  }

  // Links to the files whose names start with a prefix.
  function LinksToStarting(path: string, names: seq<string>, prefix: string): seq<FileLink> {
    if names == [] then []
    else (if prefix <= names[0] then [LinkTo(path, names[0])] else []) + LinksToStarting(path, names[1..], prefix)
  }

  predicate HasInside(s: string, part: string) {
    exists i :: 0 <= i <= |s| && part <= s[i..]
  }

  // A name shows what artwork it is after the prefix; "poster" goes first.
  predicate IsArtOfType(name: string, prefix: string, artType: ArtworkType) {
    prefix <= name &&
    match artType
    case Poster => HasInside(name[|prefix|..], "poster")
    case Thumbnail => HasInside(name[|prefix|..], "thumb") && !HasInside(name[|prefix|..], "poster")
  }

  function ArtLinksOfType(path: string, names: seq<string>, prefix: string, artType: ArtworkType): seq<ArtLink> {
    if names == [] then []
    else
      (if IsArtOfType(names[0], prefix, artType) then [ArtLinkTo(path, names[0], artType)] else [])
      + ArtLinksOfType(path, names[1..], prefix, artType)
  }

  // A directory's own artwork: poster.jpg is a poster, or else folder.jpg a thumbnail.
  function FolderArt(path: string, entries: seq<FsEntry>): seq<ArtLink> {
    if RegularFile("poster.jpg") in entries then [ArtLinkTo(path, "poster.jpg", Poster)]
    else if RegularFile("folder.jpg") in entries then [ArtLinkTo(path, "folder.jpg", Thumbnail)]
    else []
  }

  // The name of the directory when it stands for its only video, else nothing.
  function FolderNameOf(path: string, entries: seq<FsEntry>, config: ScanPlan.LibraryConfig): string {
    if config.useFolderNames && |SortedNames(entries, VideoFile)| == 1 then Stem(FileName(path)) else ""
  }

  // The item of a video. Its name without the extension is the prefix of its
  // subtitles and its artwork, and gives its title; unless the directory's name
  // stands for it, which then gives the title, and all files are its own.
  function ItemOf(path: string, entries: seq<FsEntry>, config: ScanPlan.LibraryConfig, video: string): ObjectView
    requires 4 <= |video|
  {
    var folderName := FolderNameOf(path, entries, config);
    var stem := video[..|video| - 4];
    var prefix := if folderName == "" then stem else "";
    var title := NormalizedTitle(if folderName == "" then stem else folderName);
    var images := SortedNames(entries, ImageFile);
    var own := ArtLinksOfType(path, images, prefix, Poster) + ArtLinksOfType(path, images, prefix, Thumbnail);
    ItemView(
      "object.item.videoItem.movie",
      title.text,
      if title.year == 0 then 0 else DaysFromCivil(Date(title.year, 1, 1)),
      [LinkTo(path, video)] + LinksToStarting(path, SortedNames(entries, TextFile), prefix),
      if own == [] then FolderArt(path, entries) else own)
  }

  // ----- The forest of a tree -----

  // A node for each object; items have no children.
  datatype Node = Node(view: ObjectView, children: seq<Node>)

  function ItemNodes(path: string, entries: seq<FsEntry>, config: ScanPlan.LibraryConfig): (nodes: seq<Node>)
    ensures |nodes| == |SortedNames(entries, VideoFile)|
  {
    SortedNamesAre(entries, VideoFile);
    var videos := SortedNames(entries, VideoFile);
    seq(|videos|, i requires 0 <= i < |videos| =>
      assert videos[i] in videos;
      Node(ItemOf(path, entries, config, videos[i]), []))
  }

  // A directory is a collection, if collections are wanted, when it has several
  // videos, or has none but has artwork and subdirectories.
  predicate IsCollection(path: string, entries: seq<FsEntry>, collections: bool) {
    var videos := |SortedNames(entries, VideoFile)|;
    collections && (videos > 1 || (videos == 0 && FolderArt(path, entries) != [] &&
                                   exists i :: 0 <= i < |entries| && entries[i].Directory?))
  }

  // What a directory puts under the container it is given. A collection takes
  // its items, and if it has artwork all that is below as well; else this goes
  // beside it.
  function Forest(path: string, entries: seq<FsEntry>, config: ScanPlan.LibraryConfig, collections: bool): seq<Node>
    decreases entries, 1
  {
    var items := ItemNodes(path, entries, config);
    var below := ForestBelow(path, entries, config);
    var art := FolderArt(path, entries);
    var folder := FolderView("object.container", Stem(FileName(path)), art);
    if !IsCollection(path, entries, collections) then items + below
    else if art == [] then [Node(folder, items)] + below
    else [Node(folder, items + below)]
  }

  // The subdirectories, last listed first.
  function ForestBelow(path: string, entries: seq<FsEntry>, config: ScanPlan.LibraryConfig): seq<Node>
    decreases entries, 0
  {
    if entries == [] then []
    else
      var last := entries[|entries| - 1];
      (if last.Directory? then Forest(PathIn(path, last.name), last.entries, config, config.useCollections) else [])
      + ForestBelow(path, entries[..|entries| - 1], config)
  }

  // The scanned directory itself never becomes a collection.
  function ForestOf(path: string, entries: seq<FsEntry>, config: ScanPlan.LibraryConfig): seq<Node> {
    Forest(path, entries, config, false)
  }

  // ----- Numbering -----

  datatype Placed = Placed(id: int, parent: int, view: ObjectView)

  function Count(forest: seq<Node>): nat {
    if forest == [] then 0 else 1 + Count(forest[0].children) + Count(forest[1..])
  }

  // The objects of a forest under a parent, numbered in preorder.
  function Preorder(forest: seq<Node>, parent: int, first: int): (objects: seq<Placed>)
    ensures |objects| == Count(forest)
  {
    if forest == [] then []
    else
      [Placed(first, parent, forest[0].view)]
      + Preorder(forest[0].children, first, first + 1)
      + Preorder(forest[1..], parent, first + 1 + Count(forest[0].children))
  }

  lemma PreorderCons(node: Node, rest: seq<Node>, parent: int, first: int)
    ensures Count([node] + rest) == 1 + Count(node.children) + Count(rest)
    ensures Preorder([node] + rest, parent, first)
            == [Placed(first, parent, node.view)] + Preorder(node.children, first, first + 1)
               + Preorder(rest, parent, first + 1 + Count(node.children))
  {
    assert ([node] + rest)[1..] == rest;
  }

  lemma {:induction false} PreorderAppend(a: seq<Node>, b: seq<Node>, parent: int, first: int)
    ensures Count(a + b) == Count(a) + Count(b)
    ensures Preorder(a + b, parent, first) == Preorder(a, parent, first) + Preorder(b, parent, first + Count(a))
    decreases |a|
  {
    hide *;
    if a == [] {
      assert a + b == b;
      PreorderNone(parent, first);
    } else {
      var node, rest := a[0], a[1..];
      var next := first + 1 + Count(node.children);
      PreorderAppend(rest, b, parent, next);
      assert a == [node] + rest;
      assert a + b == [node] + (rest + b);
      PreorderCons(node, rest, parent, first);
      PreorderCons(node, rest + b, parent, first);
      Associative([Placed(first, parent, node.view)] + Preorder(node.children, first, first + 1),
                  Preorder(rest, parent, next), Preorder(b, parent, next + Count(rest)));
    }
  }

  lemma PreorderNone(parent: int, first: int)
    ensures Count([]) == 0 && Preorder([], parent, first) == []
  {
  }

  lemma Associative(a: seq<Placed>, b: seq<Placed>, c: seq<Placed>)
    ensures (a + b) + c == a + (b + c)
  {
  }

  lemma PreorderOne(node: Node, parent: int, first: int)
    ensures Count([node]) == 1 + Count(node.children)
    ensures Preorder([node], parent, first)
            == [Placed(first, parent, node.view)] + Preorder(node.children, first, first + 1)
  {
    assert [node][1..] == [];
  }

  // Nodes without children are numbered in order.
  lemma {:induction false} PreorderOfLeaves(forest: seq<Node>, parent: int, first: int)
    requires forall i :: 0 <= i < |forest| ==> forest[i].children == []
    ensures Count(forest) == |forest|
    ensures forall i :: 0 <= i < |forest| ==>
              Preorder(forest, parent, first)[i] == Placed(first + i, parent, forest[i].view)
  {
    if forest != [] {
      assert Preorder(forest[0].children, first, first + 1) == [];
      PreorderOfLeaves(forest[1..], parent, first + 1);
      var rest := Preorder(forest[1..], parent, first + 1);
      forall i | 0 <= i < |forest|
        ensures Preorder(forest, parent, first)[i] == Placed(first + i, parent, forest[i].view)
      {
        if i > 0 {
          assert Preorder(forest, parent, first)[i] == rest[i - 1];
        }
      }
    }
  }

  // ----- What that comes to -----

  function NamesStarting(names: seq<string>, prefix: string): seq<string> {
    if names == [] then []
    else (if prefix <= names[0] then [names[0]] else []) + NamesStarting(names[1..], prefix)
  }

  function NamesOfArt(names: seq<string>, prefix: string, artType: ArtworkType): seq<string> {
    if names == [] then []
    else (if IsArtOfType(names[0], prefix, artType) then [names[0]] else []) + NamesOfArt(names[1..], prefix, artType)
  }

  function LinksTo(path: string, names: seq<string>): (links: seq<FileLink>)
    ensures |links| == |names|
    ensures forall i :: 0 <= i < |names| ==> links[i] == LinkTo(path, names[i])
  {
    seq(|names|, i requires 0 <= i < |names| => LinkTo(path, names[i]))
  }

  function ArtLinksTo(path: string, names: seq<string>, artType: ArtworkType): (links: seq<ArtLink>)
    ensures |links| == |names|
    ensures forall i :: 0 <= i < |names| ==> links[i] == ArtLinkTo(path, names[i], artType)
  {
    seq(|names|, i requires 0 <= i < |names| => ArtLinkTo(path, names[i], artType))
  }

  lemma {:induction false} StartingAre(path: string, names: seq<string>, prefix: string)
    ensures LinksToStarting(path, names, prefix) == LinksTo(path, NamesStarting(names, prefix))
    ensures forall n :: n in NamesStarting(names, prefix) <==> n in names && prefix <= n
  {
    hide LinkTo;
    if names != [] {
      StartingAre(path, names[1..], prefix);
      assert forall n :: n in names <==> n == names[0] || n in names[1..];
    }
  }

  lemma {:induction false} ArtAre(path: string, names: seq<string>, prefix: string, artType: ArtworkType)
    ensures ArtLinksOfType(path, names, prefix, artType)
            == ArtLinksTo(path, NamesOfArt(names, prefix, artType), artType)
    ensures forall n :: n in NamesOfArt(names, prefix, artType) <==> n in names && IsArtOfType(n, prefix, artType)
  {
    hide ArtLinkTo, IsArtOfType;
    if names != [] {
      ArtAre(path, names[1..], prefix, artType);
      assert forall n :: n in names <==> n == names[0] || n in names[1..];
    }
  }

  // A video called stem + extension: without a folder name, its title and date
  // come from the stem, and its subtitles and own artwork are the files whose
  // names start with the stem; with one, which takes the option and a single
  // video, they come from that name, and all files are its own.
  lemma ItemOfStem(path: string, entries: seq<FsEntry>, config: ScanPlan.LibraryConfig, stem: string, extension: string)
    requires extension in [".mkv", ".mp4", ".avi", ".mpg"]
    ensures
      var folderName := FolderNameOf(path, entries, config);
      var item := ItemOf(path, entries, config, stem + extension);
      var name := if folderName == "" then stem else folderName;
      var prefix := if folderName == "" then stem else "";
      var texts, images := SortedNames(entries, TextFile), SortedNames(entries, ImageFile);
      && (folderName != "" ==> config.useFolderNames && |SortedNames(entries, VideoFile)| == 1)
      && item.ItemView? && item.title == NormalizedTitle(name).text
      && item.date == (if NormalizedTitle(name).year == 0 then 0
                       else DaysFromCivil(Date(NormalizedTitle(name).year, 1, 1)))
      && item.files == [LinkTo(path, stem + extension)] + LinksTo(path, NamesStarting(texts, prefix))
      && var posters, thumbs := NamesOfArt(images, prefix, Poster), NamesOfArt(images, prefix, Thumbnail);
         item.artwork == if posters == [] && thumbs == [] then FolderArt(path, entries)
                         else ArtLinksTo(path, posters, Poster) + ArtLinksTo(path, thumbs, Thumbnail)
  {
    assert (stem + extension)[..|stem|] == stem;
    var prefix := if FolderNameOf(path, entries, config) == "" then stem else "";
    var texts, images := SortedNames(entries, TextFile), SortedNames(entries, ImageFile);
    hide SortedNames, LinksToStarting, ArtLinksOfType, NormalizedTitle, DaysFromCivil, FolderArt, LinkTo,
      Stem, FileName;
    StartingAre(path, texts, prefix);
    ArtAre(path, images, prefix, Poster);
    ArtAre(path, images, prefix, Thumbnail);
  }

  // What a directory of two videos alone puts under its container.
  lemma TwoVideosForest(path: string, inside: seq<FsEntry>, config: ScanPlan.LibraryConfig)
    requires inside == [RegularFile("a.mkv"), RegularFile("b.mkv")]
    ensures |ItemNodes(path, inside, config)| == 2 && FolderArt(path, inside) == []
    ensures ItemNodes(path, inside, config)[0] == Node(ItemOf(path, inside, config, "a.mkv"), [])
    ensures ItemNodes(path, inside, config)[1] == Node(ItemOf(path, inside, config, "b.mkv"), [])
    ensures Forest(path, inside, config, true)
            == [Node(FolderView("object.container", Stem(FileName(path)), []), ItemNodes(path, inside, config))]
  {
    AlienNames(inside);
    NothingBelow(path, inside[0], inside[1], config);
    assert inside == [inside[0], inside[1]];
    hide SortedNames, ItemOf, Stem, FileName, ForestBelow, ArtLinkTo;
  }

  // "Alien" with two videos becomes a collection that holds both.
  lemma TwoVideosCollect()
    ensures
      var inside, config := [RegularFile("a.mkv"), RegularFile("b.mkv")], ScanPlan.LibraryConfig(false, true);
      ForestOf("/m", [Directory("Alien", inside)], config)
      == [Node(FolderView("object.container", "Alien", []),
               [Node(ItemOf("/m/Alien", inside, config, "a.mkv"), []),
                Node(ItemOf("/m/Alien", inside, config, "b.mkv"), [])])]
  {
    var inside, config := [RegularFile("a.mkv"), RegularFile("b.mkv")], ScanPlan.LibraryConfig(false, true);
    hide *;
    TwoVideosForest("/m/Alien", inside, config);
    AlienStem();
    OneBelow("/m", "Alien", inside, config);
    assert ItemNodes("/m/Alien", inside, config)
           == [Node(ItemOf("/m/Alien", inside, config, "a.mkv"), []),
               Node(ItemOf("/m/Alien", inside, config, "b.mkv"), [])];
  }

  // A directory with one subdirectory and nothing else.
  lemma OneBelow(path: string, name: string, inside: seq<FsEntry>, config: ScanPlan.LibraryConfig)
    ensures ForestOf(path, [Directory(name, inside)], config)
            == Forest(PathIn(path, name), inside, config, config.useCollections)
  {
    var outer := [Directory(name, inside)];
    assert outer[..0] == [];
    NoSortedNames(outer);
    assert ItemNodes(path, outer, config) == [];
    assert ForestBelow(path, [], config) == [];
    hide SortedNames, ItemOf, Stem, FileName, PathIn;
    var below := Forest(PathIn(path, name), inside, config, config.useCollections);
    assert ForestBelow(path, outer, config) == below + [];
    assert below + [] == below && [] + below == below;
  }

  lemma NothingBelow(path: string, a: FsEntry, b: FsEntry, config: ScanPlan.LibraryConfig)
    requires !a.Directory? && !b.Directory?
    ensures ForestBelow(path, [a, b], config) == []
  {
    assert [a, b][..1] == [a] && [a][..0] == [];
    assert ForestBelow(path, [], config) == [];
    assert ForestBelow(path, [a], config) == [];
  }

  lemma AlienNames(inside: seq<FsEntry>)
    requires inside == [RegularFile("a.mkv"), RegularFile("b.mkv")]
    ensures SortedNames(inside, VideoFile) == ["a.mkv", "b.mkv"]
  {
    var first := [RegularFile("a.mkv")];
    assert inside[..1] == first && first[..0] == [];
    assert EndsWith("a.mkv", ".mkv") && EndsWith("b.mkv", ".mkv");
    assert SortedNames([], VideoFile) == [];
    assert SortedNames(first, VideoFile) == Insert([], "a.mkv") == ["a.mkv"];
    assert !Less("b.mkv", "a.mkv");
    assert ["a.mkv"][1..] == [];
    assert Insert(["a.mkv"], "b.mkv") == ["a.mkv", "b.mkv"];
  }

  lemma NoSortedNames(outer: seq<FsEntry>)
    requires |outer| == 1 && outer[0].Directory?
    ensures SortedNames(outer, VideoFile) == []
  {
    assert outer[..0] == [];
  }

  lemma AlienStem()
    ensures PathIn("/m", "Alien") == "/m/Alien" && Stem(FileName("/m/Alien")) == "Alien"
  {
    FileNameAfterSlash("/m/", "Alien");
    assert "/m/" + "Alien" == "/m/Alien";
    StemIs("Alien");
  }
}
