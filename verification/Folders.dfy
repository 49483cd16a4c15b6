// The directory tree a scan reads, and the sorted file lists it builds.
module Folders {
  import opened Wrappers
  import opened Text
  import opened Records

  datatype FsEntry =
    | Directory(name: string, entries: seq<FsEntry>)
    | RegularFile(name: string)
    | SpecialFile(name: string)

  datatype FileInfo = FileInfo(mimeType: MimeType, path: string)

  // An entry of a std::map from file names.
  datatype NamedFile = NamedFile(name: string, info: FileInfo)

  datatype MediaKind = VideoFile | ImageFile | TextFile

  function GetMimeType(name: string): Option<MimeType> {
    var extension := Extension(name);
    if extension == ".mkv" then Some(Matroska)
    else if extension == ".mp4" then Some(Mp4)
    else if extension == ".avi" then Some(MsVideo)
    else if extension == ".mpg" then Some(Mpeg)
    else if extension == ".jpg" then Some(Jpeg)
    else if extension == ".srt" then Some(Srt)
    else None
  }

  predicate HasMediaKind(mimeType: MimeType, kind: MediaKind) {
    match mimeType
    case Jpeg => kind == ImageFile
    case Srt => kind == TextFile
    case _ => kind == VideoFile
  }

  function MediaKindPrefix(kind: MediaKind): string {
    match kind
    case VideoFile => "video/"
    case ImageFile => "image/"
    case TextFile => "text/"
  }

  // The kind of a MIME type is the part before the slash.
  lemma MediaKindIsPrefix(mimeType: MimeType, kind: MediaKind)
    ensures HasMediaKind(mimeType, kind) <==> MediaKindPrefix(kind) <= MimeText(mimeType)
  {
    assert MimeText(mimeType)[0] == MediaKindPrefix(kind)[0] <==> HasMediaKind(mimeType, kind);
  }

  // The type of a file by the end of its name.
  function MimeTextByName(name: string): string {
    if EndsWith(name, ".mkv") then "video/x-matroska"
    else if EndsWith(name, ".mp4") then "video/mp4"
    else if EndsWith(name, ".avi") then "video/x-msvideo"
    else if EndsWith(name, ".mpg") then "video/mpeg"
    else if EndsWith(name, ".jpg") then "image/jpeg"
    else if EndsWith(name, ".srt") then "text/srt"
    else ""
  }

  predicate IsVideoName(name: string) {
    EndsWith(name, ".mkv") || EndsWith(name, ".mp4") || EndsWith(name, ".avi") || EndsWith(name, ".mpg")
  }

  // The type of a file is decided by its last four characters alone.
  lemma MimeTypeIs(name: string)
    ensures GetMimeType(name) == Some(Matroska) <==> EndsWith(name, ".mkv")
    ensures GetMimeType(name) == Some(Mp4) <==> EndsWith(name, ".mp4")
    ensures GetMimeType(name) == Some(MsVideo) <==> EndsWith(name, ".avi")
    ensures GetMimeType(name) == Some(Mpeg) <==> EndsWith(name, ".mpg")
    ensures GetMimeType(name) == Some(Jpeg) <==> EndsWith(name, ".jpg")
    ensures GetMimeType(name) == Some(Srt) <==> EndsWith(name, ".srt")
    ensures GetMimeType(name).Some? <==> MimeTextByName(name) != ""
    ensures GetMimeType(name).Some? ==> MimeText(GetMimeType(name).value) == MimeTextByName(name)
  {
    hide Extension, EndsWith;
    ExtensionEnds(name, ".mkv");
    ExtensionEnds(name, ".mp4");
    ExtensionEnds(name, ".avi");
    ExtensionEnds(name, ".mpg");
    ExtensionEnds(name, ".jpg");
    ExtensionEnds(name, ".srt");
  }

  // The kind of a file, by the end of its name.
  predicate IsNameOfKind(name: string, kind: MediaKind) {
    match kind
    case VideoFile => IsVideoName(name)
    case ImageFile => EndsWith(name, ".jpg")
    case TextFile => EndsWith(name, ".srt")
  }

  lemma KindIs(entry: FsEntry, kind: MediaKind)
    ensures IsMediaFile(entry, kind) <==> entry.RegularFile? && IsNameOfKind(entry.name, kind)
  {
    hide EndsWith, GetMimeType;
    MimeTypeIs(entry.name);
  }

  predicate IsMediaFile(entry: FsEntry, kind: MediaKind) {
    entry.RegularFile? && GetMimeType(entry.name).Some? && HasMediaKind(GetMimeType(entry.name).value, kind)
  }

  function FileOf(path: string, name: string): NamedFile
    requires GetMimeType(name).Some?
  {
    NamedFile(name, FileInfo(GetMimeType(name).value, Join(path, name)))
  }

  predicate HasSubdirectory(entries: seq<FsEntry>) {
    exists i :: 0 <= i < |entries| && entries[i].Directory?
  }

  // Names within a directory are distinct, everywhere in the tree.
  ghost predicate DistinctNames(entries: seq<FsEntry>) {
    && (forall i, j :: 0 <= i < j < |entries| ==> entries[i].name != entries[j].name)
    && (forall i :: 0 <= i < |entries| && entries[i].Directory? ==> DistinctNames(entries[i].entries))
  }

  // ----- Sorted file maps -----

  ghost predicate Ascending(files: seq<NamedFile>) {
    forall i, j :: 0 <= i < j < |files| ==> Less(files[i].name, files[j].name)
  }

  // std::map::emplace: does nothing when the name is taken.
  function Emplace(files: seq<NamedFile>, file: NamedFile): (r: seq<NamedFile>)
  {
    if files == [] || Less(file.name, files[0].name) then [file] + files
    else if files[0].name == file.name then files
    else [files[0]] + Emplace(files[1..], file)
  }

  ghost predicate HasName(files: seq<NamedFile>, name: string) {
    exists f :: f in files && f.name == name
  }

  lemma {:induction false} EmplaceMembers(files: seq<NamedFile>, file: NamedFile, f: NamedFile)
    requires f in Emplace(files, file)
    ensures f in files || f == file
  {
    if files != [] && !Less(file.name, files[0].name) && files[0].name != file.name && f != files[0] {
      EmplaceMembers(files[1..], file, f);
    }
  }

  lemma {:induction false} EmplaceAscending(files: seq<NamedFile>, file: NamedFile)
    requires Ascending(files)
    ensures Ascending(Emplace(files, file))
  {
    var after := Emplace(files, file);
    if files == [] {
    } else if Less(file.name, files[0].name) {
      forall i | 0 < i < |files| ensures Less(file.name, files[i].name) {
        LessTransitive(file.name, files[0].name, files[i].name);
      }
    } else if files[0].name != file.name {
      EmplaceAscending(files[1..], file);
      LessTotal(file.name, files[0].name);
      var tail := Emplace(files[1..], file);
      forall j | 0 <= j < |tail| ensures Less(files[0].name, tail[j].name) {
        EmplaceMembers(files[1..], file, tail[j]);
        if tail[j] in files[1..] {
          var i :| 0 <= i < |files[1..]| && files[1..][i] == tail[j];
          assert files[i + 1] == tail[j];
        }
      }
      assert after == [files[0]] + tail;
    }
  }

  lemma {:induction false} EmplaceNew(files: seq<NamedFile>, file: NamedFile)
    requires !HasName(files, file.name)
    ensures multiset(Emplace(files, file)) == multiset(files) + multiset{file}
  {
    if files != [] && !Less(file.name, files[0].name) {
      assert files[0] in files;
      assert !HasName(files[1..], file.name);
      EmplaceNew(files[1..], file);
      assert files == [files[0]] + files[1..];
    }
  }

  // The files of one kind among directory entries, as a sorted map.
  function Collect(path: string, entries: seq<FsEntry>, kind: MediaKind): seq<NamedFile> {
    if entries == [] then []
    else
      var last := entries[|entries| - 1];
      var before := Collect(path, entries[..|entries| - 1], kind);
      if IsMediaFile(last, kind) then Emplace(before, FileOf(path, last.name)) else before
  }

  // The same files in listing order.
  function Listed(path: string, entries: seq<FsEntry>, kind: MediaKind): seq<NamedFile> {
    if entries == [] then []
    else
      var last := entries[|entries| - 1];
      Listed(path, entries[..|entries| - 1], kind) + if IsMediaFile(last, kind) then [FileOf(path, last.name)] else []
  }

  lemma {:induction false} ListedNames(path: string, entries: seq<FsEntry>, kind: MediaKind, f: NamedFile)
    requires f in Listed(path, entries, kind)
    ensures exists i :: 0 <= i < |entries| && entries[i].name == f.name
  {
    var front := entries[..|entries| - 1];
    if f in Listed(path, front, kind) {
      ListedNames(path, front, kind, f);
      var i :| 0 <= i < |front| && front[i].name == f.name;
      assert entries[i].name == f.name;
    } else {
      assert entries[|entries| - 1].name == f.name;
    }
  }

  // Collecting sorts: nothing is lost when the names are distinct.
  lemma {:induction false} CollectSorts(path: string, entries: seq<FsEntry>, kind: MediaKind)
    requires forall i, j :: 0 <= i < j < |entries| ==> entries[i].name != entries[j].name
    ensures multiset(Collect(path, entries, kind)) == multiset(Listed(path, entries, kind))
  {
    if entries != [] {
      var front := entries[..|entries| - 1];
      var last := entries[|entries| - 1];
      CollectSorts(path, front, kind);
      if IsMediaFile(last, kind) {
        var before := Collect(path, front, kind);
        forall f | f in before ensures f.name != last.name {
          assert f in multiset(Listed(path, front, kind));
          ListedNames(path, front, kind, f);
          var i :| 0 <= i < |front| && front[i].name == f.name;
          assert entries[i] == front[i];
        }
        EmplaceNew(before, FileOf(path, last.name));
      }
    }
  }

  lemma {:induction false} CollectAscending(path: string, entries: seq<FsEntry>, kind: MediaKind)
    ensures Ascending(Collect(path, entries, kind))
  {
    if entries != [] {
      CollectAscending(path, entries[..|entries| - 1], kind);
      var last := entries[|entries| - 1];
      if IsMediaFile(last, kind) {
        EmplaceAscending(Collect(path, entries[..|entries| - 1], kind), FileOf(path, last.name));
      }
    }
  }

  // ----- Prefix search -----

  function LowerBoundName(files: seq<NamedFile>, name: string): (n: nat)
    ensures n <= |files|
    ensures n < |files| ==> !Less(files[n].name, name)
    ensures forall i :: 0 <= i < n ==> Less(files[i].name, name)
  {
    if files == [] || !Less(files[0].name, name) then 0
    else 1 + LowerBoundName(files[1..], name)
  }

  // All files whose name starts with a prefix, by looking at every one.
  function Matching(files: seq<NamedFile>, prefix: string): seq<NamedFile> {
    if files == [] then []
    else (if prefix <= files[0].name then [files[0]] else []) + Matching(files[1..], prefix)
  }

  lemma {:induction false} NoneMatching(files: seq<NamedFile>, prefix: string)
    requires forall i :: 0 <= i < |files| ==> !(prefix <= files[i].name)
    ensures Matching(files, prefix) == []
  {
    if files != [] {
      NoneMatching(files[1..], prefix);
    }
  }

  lemma {:induction false} MatchingBlock(files: seq<NamedFile>, lo: nat, hi: nat, prefix: string)
    requires lo <= hi <= |files|
    requires forall i :: 0 <= i < lo ==> !(prefix <= files[i].name)
    requires forall i :: lo <= i < hi ==> prefix <= files[i].name
    requires forall i :: hi <= i < |files| ==> !(prefix <= files[i].name)
    ensures Matching(files, prefix) == files[lo..hi]
  {
    if lo > 0 {
      MatchingBlock(files[1..], lo - 1, hi - 1, prefix);
      assert files[1..][lo - 1..hi - 1] == files[lo..hi];
    } else if hi > 0 {
      MatchingBlock(files[1..], 0, hi - 1, prefix);
      assert [files[0]] + files[1..][0..hi - 1] == files[0..hi];
    } else {
      NoneMatching(files, prefix);
    }
  }

  // The matches of a sorted map are one block: it starts at the lower bound of
  // the prefix and ends before the first later name without the prefix.
  lemma PrefixBlock(files: seq<NamedFile>, prefix: string, hi: nat)
    requires Ascending(files)
    requires LowerBoundName(files, prefix) <= hi <= |files|
    requires forall i :: LowerBoundName(files, prefix) <= i < hi ==> prefix <= files[i].name
    requires hi < |files| ==> !(prefix <= files[hi].name)
    ensures Matching(files, prefix) == files[LowerBoundName(files, prefix)..hi]
  {
    var lo := LowerBoundName(files, prefix);
    forall i | 0 <= i < lo ensures !(prefix <= files[i].name) {
      if prefix <= files[i].name { PrefixNotAfter(prefix, files[i].name); }
    }
    forall i | hi <= i < |files| ensures !(prefix <= files[i].name) {
      NoMatchLater(files, prefix, hi, i);
    }
    MatchingBlock(files, lo, hi, prefix);
  }

  lemma NoMatchLater(files: seq<NamedFile>, prefix: string, hi: nat, i: nat)
    requires Ascending(files)
    requires LowerBoundName(files, prefix) <= hi <= i < |files|
    requires !(prefix <= files[hi].name)
    ensures !(prefix <= files[i].name)
  {
    var lo := LowerBoundName(files, prefix);
    if prefix <= files[i].name && hi < i {
      if hi > lo { NotLessLater(files, lo, hi, prefix); }
      PrefixConvex(prefix, files[hi].name, files[i].name);
    }
  }

  lemma NotLessLater(files: seq<NamedFile>, lo: nat, hi: nat, prefix: string)
    requires Ascending(files) && lo < hi < |files|
    requires !Less(files[lo].name, prefix)
    ensures !Less(files[hi].name, prefix)
  {
    if Less(files[hi].name, prefix) {
      LessTransitive(files[lo].name, files[hi].name, prefix);
    }
  }
}
