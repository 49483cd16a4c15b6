// The items a scan is to leave are the videos of the scanned tree, each once.
module ScanVideos {
  import opened Wrappers
  import opened Text
  import opened Folders
  import opened Expected
  import ScanPlan

  // The path of every video below a directory, in listing order.
  function AllVideos(path: string, entries: seq<FsEntry>): seq<string>
    decreases entries
  {
    if entries == [] then []
    else
      var last := entries[|entries| - 1];
      AllVideos(path, entries[..|entries| - 1]) +
      if last.Directory? then AllVideos(PathIn(path, last.name), last.entries)
      else if last.RegularFile? && IsVideoName(last.name) then [PathIn(path, last.name)]
      else []
  }

  function PathsIn(path: string, names: seq<string>): (paths: seq<string>)
    ensures |paths| == |names|
  {
    if names == [] then [] else [PathIn(path, names[0])] + PathsIn(path, names[1..])
  }

  // The same videos in the order a scan meets them: those of a directory by
  // name, then those of its subdirectories, last listed first.
  function ScannedVideos(path: string, entries: seq<FsEntry>): seq<string>
    decreases entries, 1
  {
    PathsIn(path, SortedNames(entries, VideoFile)) + ScannedBelow(path, entries)
  }

  function ScannedBelow(path: string, entries: seq<FsEntry>): seq<string>
    decreases entries, 0
  {
    if entries == [] then []
    else
      var last := entries[|entries| - 1];
      (if last.Directory? then ScannedVideos(PathIn(path, last.name), last.entries) else [])
      + ScannedBelow(path, entries[..|entries| - 1])
  }

  lemma {:induction false} PathsAre(path: string, names: seq<string>)
    ensures forall i :: 0 <= i < |names| ==> PathsIn(path, names)[i] == PathIn(path, names[i])
  {
    hide PathIn;
    if names != [] {
      PathsAre(path, names[1..]);
    }
  }

  // ----- Every video once -----

  lemma {:induction false} InsertPath(path: string, names: seq<string>, name: string)
    requires name !in names
    ensures multiset(PathsIn(path, Insert(names, name)))
            == multiset(PathsIn(path, names)) + multiset{PathIn(path, name)}
  {
    hide PathIn, Less;
    if names == [] || Less(name, names[0]) {
      assert ([name] + names)[1..] == names;
    } else {
      assert names[0] in names;
      assert name !in names[1..];
      InsertPath(path, names[1..], name);
      assert ([names[0]] + Insert(names[1..], name))[1..] == Insert(names[1..], name);
    }
  }

  // Videos of a directory itself, in listing order.
  function OwnVideos(path: string, entries: seq<FsEntry>): seq<string> {
    if entries == [] then []
    else
      var last := entries[|entries| - 1];
      OwnVideos(path, entries[..|entries| - 1]) +
      if last.RegularFile? && IsVideoName(last.name) then [PathIn(path, last.name)] else []
  }

  lemma {:induction false} SortedOnce(path: string, entries: seq<FsEntry>)
    requires forall i, j :: 0 <= i < j < |entries| ==> entries[i].name != entries[j].name
    ensures multiset(PathsIn(path, SortedNames(entries, VideoFile))) == multiset(OwnVideos(path, entries))
  {
    hide PathIn, IsVideoName, Insert, PathsIn;
    if entries == [] {
      NoPaths(path);
    } else {
      var front, last := entries[..|entries| - 1], entries[|entries| - 1];
      SortedOnce(path, front);
      if last.RegularFile? && IsVideoName(last.name) {
        SortedNamesAre(front, VideoFile);
        assert last.name !in SortedNames(front, VideoFile);
        InsertPath(path, SortedNames(front, VideoFile), last.name);
      }
    }
  }

  lemma NoPaths(path: string)
    ensures PathsIn(path, []) == []
  {
  }

  lemma {:induction false} AllVideosSplit(path: string, entries: seq<FsEntry>)
    requires DistinctNames(entries)
    ensures multiset(AllVideos(path, entries))
            == multiset(OwnVideos(path, entries)) + multiset(ScannedBelow(path, entries))
    decreases entries, 0
  {
    hide PathIn, IsVideoName, ScannedVideos;
    if entries != [] {
      var front, last := entries[..|entries| - 1], entries[|entries| - 1];
      assert entries == front + [last];
      assert DistinctNames(front);
      AllVideosSplit(path, front);
      if last.Directory? {
        assert DistinctNames(last.entries);
        ScansAllVideos(PathIn(path, last.name), last.entries);
      }
    }
  }

  // A scan meets every video of the tree, each once.
  lemma {:induction false} ScansAllVideos(path: string, entries: seq<FsEntry>)
    requires DistinctNames(entries)
    ensures multiset(ScannedVideos(path, entries)) == multiset(AllVideos(path, entries))
    decreases entries, 1
  {
    hide ScannedBelow, AllVideos, PathsIn, SortedNames, OwnVideos;
    AllVideosSplit(path, entries);
    SortedOnce(path, entries);
  }

  // ----- The videos of a forest -----

  function Somes(paths: seq<string>): (r: seq<Option<string>>)
    ensures |r| == |paths|
    ensures forall i :: 0 <= i < |paths| ==> r[i] == Some(paths[i])
  {
    seq(|paths|, i requires 0 <= i < |paths| => Some(paths[i]))
  }

  lemma SomesAppend(a: seq<string>, b: seq<string>)
    ensures Somes(a + b) == Somes(a) + Somes(b)
  {
  }

  // The path of an item's first file.
  function VideoOf(view: ObjectView): Option<string>
    requires view.ItemView?
  {
    if view.files == [] || view.files[0].target.None? then None else Some(view.files[0].target.value.path)
  }

  // The videos of the items among some objects.
  function VideosAmong(objects: seq<Placed>): seq<Option<string>> {
    if objects == [] then []
    else (if objects[0].view.ItemView? then [VideoOf(objects[0].view)] else []) + VideosAmong(objects[1..])
  }

  lemma {:induction false} VideosAmongAppend(a: seq<Placed>, b: seq<Placed>)
    ensures VideosAmong(a + b) == VideosAmong(a) + VideosAmong(b)
  {
    if a == [] {
      assert a + b == b;
    } else {
      VideosAmongAppend(a[1..], b);
      assert a == [a[0]] + a[1..] && a + b == [a[0]] + (a[1..] + b);
      VideosAmongCons(a[0], a[1..]);
      VideosAmongCons(a[0], a[1..] + b);
      hide *;
    }
  }

  lemma VideosAmongCons(first: Placed, rest: seq<Placed>)
    ensures VideosAmong([first] + rest)
            == (if first.view.ItemView? then [VideoOf(first.view)] else []) + VideosAmong(rest)
  {
    hide VideoOf;
    assert ([first] + rest)[1..] == rest;
  }

  // The videos of a forest, which do not depend on how it is numbered.
  function VideosIn(forest: seq<Node>): seq<Option<string>> {
    if forest == [] then []
    else
      (if forest[0].view.ItemView? then [VideoOf(forest[0].view)] else [])
      + VideosIn(forest[0].children) + VideosIn(forest[1..])
  }

  lemma {:induction false} VideosOfPreorder(forest: seq<Node>, parent: int, first: int)
    ensures VideosAmong(Preorder(forest, parent, first)) == VideosIn(forest)
  {
    hide VideoOf;
    if forest != [] {
      var node, rest := forest[0], forest[1..];
      var next := first + 1 + Count(node.children);
      VideosOfPreorder(node.children, first, first + 1);
      VideosOfPreorder(rest, parent, next);
      var top := [Placed(first, parent, node.view)];
      VideosAmongAppend(top + Preorder(node.children, first, first + 1), Preorder(rest, parent, next));
      VideosAmongAppend(top, Preorder(node.children, first, first + 1));
      assert top[1..] == [];
    }
  }

  lemma {:induction false} VideosInAppend(a: seq<Node>, b: seq<Node>)
    ensures VideosIn(a + b) == VideosIn(a) + VideosIn(b)
  {
    hide VideoOf;
    if a == [] {
      assert a + b == b;
    } else {
      assert (a + b)[0] == a[0] && (a + b)[1..] == a[1..] + b;
      VideosInAppend(a[1..], b);
    }
  }

  lemma VideosInFolder(folder: ObjectView, children: seq<Node>)
    requires folder.FolderView?
    ensures VideosIn([Node(folder, children)]) == VideosIn(children)
  {
    assert [Node(folder, children)][1..] == [];
  }

  lemma {:induction false} VideosInItems(nodes: seq<Node>, paths: seq<string>)
    requires |nodes| == |paths|
    requires forall i :: 0 <= i < |nodes| ==>
               nodes[i].children == [] && nodes[i].view.ItemView? && VideoOf(nodes[i].view) == Some(paths[i])
    ensures VideosIn(nodes) == Somes(paths)
  {
    if nodes != [] {
      VideosInItems(nodes[1..], paths[1..]);
      assert VideosIn(nodes[0].children) == [];
    }
  }

  lemma VideosInItemNodes(path: string, entries: seq<FsEntry>, config: ScanPlan.LibraryConfig)
    ensures VideosIn(ItemNodes(path, entries, config)) == Somes(PathsIn(path, SortedNames(entries, VideoFile)))
  {
    var names := SortedNames(entries, VideoFile);
    PathsAre(path, names);
    SortedNamesAre(entries, VideoFile);
    hide SortedNames, FolderNameOf, LinksToStarting, ArtLinksOfType, FolderArt, PathIn, MimeTextByName;
    forall i | 0 <= i < |names|
      ensures ItemNodes(path, entries, config)[i].view.ItemView?
      ensures VideoOf(ItemNodes(path, entries, config)[i].view) == Some(PathsIn(path, names)[i])
    {
      assert names[i] in names;
    }
    VideosInItems(ItemNodes(path, entries, config), PathsIn(path, names));
  }

  // The items of a forest are the scanned videos, in the order of the scan.
  lemma {:induction false} ForestVideos(path: string, entries: seq<FsEntry>, config: ScanPlan.LibraryConfig,
                                        collections: bool)
    ensures VideosIn(Forest(path, entries, config, collections)) == Somes(ScannedVideos(path, entries))
    decreases entries, 1
  {
    hide ItemNodes, SortedNames, FolderArt, IsCollection, ForestBelow, ScannedBelow, VideosIn, Somes, PathsIn;
    var items, below := ItemNodes(path, entries, config), ForestBelow(path, entries, config);
    var folder := FolderView("object.container", Stem(FileName(path)), FolderArt(path, entries));
    VideosInItemNodes(path, entries, config);
    ForestBelowVideos(path, entries, config);
    SomesAppend(PathsIn(path, SortedNames(entries, VideoFile)), ScannedBelow(path, entries));
    VideosInAppend(items, below);
    VideosInAppend([Node(folder, items)], below);
    VideosInFolder(folder, items);
    VideosInFolder(folder, items + below);
  }

  lemma {:induction false} ForestBelowVideos(path: string, entries: seq<FsEntry>, config: ScanPlan.LibraryConfig)
    ensures VideosIn(ForestBelow(path, entries, config)) == Somes(ScannedBelow(path, entries))
    decreases entries, 0
  {
    hide Forest, ScannedVideos, PathIn, VideosIn, Somes;
    if entries == [] {
      NoVideos();
    } else {
      var front, last := entries[..|entries| - 1], entries[|entries| - 1];
      ForestBelowVideos(path, front, config);
      if last.Directory? {
        var inside := PathIn(path, last.name);
        ForestVideos(inside, last.entries, config, config.useCollections);
        VideosInAppend(Forest(inside, last.entries, config, config.useCollections), ForestBelow(path, front, config));
        SomesAppend(ScannedVideos(inside, last.entries), ScannedBelow(path, front));
      } else {
        assert ForestBelow(path, entries, config) == ForestBelow(path, front, config);
        assert ScannedBelow(path, entries) == ScannedBelow(path, front);
      }
    }
  }

  lemma NoVideos()
    ensures VideosIn([]) == Somes([])
  {
  }
}
