// Splitting a request target into the service it is for and the path below it.
module Server {
  import opened Wrappers
  import opened Text

  const QUERY: char := '?'

  // ----- Targets -----

  function TargetPath(target: string): (path: string)
    ensures path <= target && QUERY !in path
    ensures |path| < |target| ==> target[|path|] == QUERY
  {
    if target == [] || target[0] == QUERY then []
    else [target[0]] + TargetPath(target[1..])
  }

  // The path of a target, and its query from the question mark on.
  method ParseTarget(target: string) returns (path: string, query: string)
    ensures path == TargetPath(target) && path + query == target
  {
    var pos := 0;
    while pos < |target| && target[pos] != QUERY
      invariant 0 <= pos <= |target|
      invariant QUERY !in target[..pos]
    {
      pos := pos + 1;
    }
    PathEnds(target, pos);
    path, query := target[..pos], target[pos..];
    assert path + query == target;
  }

  lemma {:induction false} PathEnds(target: string, pos: nat)
    requires pos <= |target| && QUERY !in target[..pos] && (pos < |target| ==> target[pos] == QUERY)
    ensures TargetPath(target) == target[..pos]
  {
    if pos > 0 {
      assert target[0] in target[..pos];
      assert target[1..][..pos - 1] == target[..pos][1..];
      PathEnds(target[1..], pos - 1);
    }
  }

  // ----- Path components -----

  function TakeName(s: string): (name: string)
    ensures name <= s && SLASH !in name
    ensures |name| < |s| ==> s[|name|] == SLASH
    ensures s != [] && s[0] != SLASH ==> name != []
  {
    if s == [] || s[0] == SLASH then [] else [s[0]] + TakeName(s[1..])
  }

  // The names between slashes; a slash after the last one leaves an empty name.
  function Names(s: string): seq<string>
    decreases |s|
  {
    if s == [] then []
    else if s[0] == SLASH then Names(s[1..])
    else
      var name := TakeName(s);
      var rest := s[|name|..];
      [name] + if AllSlashes(rest) && rest != [] then [""] else Names(rest)
  }

  predicate AllSlashes(s: string) {
    forall i :: 0 <= i < |s| ==> s[i] == SLASH
  }

  // What iterating over a path yields: the root directory, then the names.
  function PathParts(path: string): seq<string> {
    (if path != [] && path[0] == SLASH then [[SLASH]] else []) + Names(path)
  }

  function JoinAll(path: string, names: seq<string>): string {
    if names == [] then path
    else Join(JoinAll(path, names[..|names| - 1]), names[|names| - 1])
  }

  // ----- Dispatch -----

  datatype Route =
    | Index
    | ToUpnp(subPath: string)
    | ToContent(subPath: string)
    | NoService

  function RouteOf(target: string): Route {
    var names := Names(TargetPath(target));
    if names == [] then Index
    else if names[0] == "upnp" then ToUpnp(JoinAll("", names[1..]))
    else if names[0] == "content" then ToContent(JoinAll("", names[1..]))
    else NoService
  }

  predicate HasRootDirectory(part: string) {
    part != [] && part[0] == SLASH
  }

  lemma JoinNext(names: seq<string>, name: string)
    ensures JoinAll("", []) == "" && JoinAll("", names + [name]) == Join(JoinAll("", names), name)
  {
    hide Join;
    assert (names + [name])[..|names|] == names;
  }

  method Dispatch(target: string) returns (r: Route)
    ensures r == RouteOf(target)
  {
    hide Names, JoinAll, TargetPath;
    var path, _ := ParseTarget(target);
    var parts := PathParts(path);
    NamesAreRelative(path);
    ghost var names := Names(path);
    var begin := 0;
    while begin < |parts| && HasRootDirectory(parts[begin])
      invariant 0 <= begin <= |parts|
      invariant begin <= |parts| - |names|
    {
      begin := begin + 1;
    }
    assert parts[begin..] == names;
    if begin == |parts| {
      return Index;
    }
    assert parts[begin] == names[0] && parts[begin + 1..] == names[1..];
    var subPath := JoinParts(parts, begin + 1);
    if parts[begin] == "upnp" {
      return ToUpnp(subPath);
    } else if parts[begin] == "content" {
      return ToContent(subPath);
    }
    return NoService;
  }

  // The path made of all parts from one on.
  method JoinParts(parts: seq<string>, from: nat) returns (subPath: string)
    requires from <= |parts|
    ensures subPath == JoinAll("", parts[from..])
  {
    hide JoinAll, Join;
    subPath := "";
    var i := from;
    JoinNext([], "");
    assert parts[from..from] == [];
    while i < |parts|
      invariant from <= i <= |parts|
      invariant subPath == JoinAll("", parts[from..i])
    {
      assert parts[from..i + 1] == parts[from..i] + [parts[i]];
      JoinNext(parts[from..i], parts[i]);
      subPath := Join(subPath, parts[i]);
      i := i + 1;
    }
    assert parts[from..|parts|] == parts[from..];
  }

  lemma {:induction false} NamesAreRelative(s: string)
    ensures forall i :: 0 <= i < |Names(s)| ==> !HasRootDirectory(Names(s)[i])
    decreases |s|
  {
    if s != [] {
      if s[0] == SLASH {
        NamesAreRelative(s[1..]);
      } else {
        var name := TakeName(s);
        NamesAreRelative(s[|name|..]);
      }
    }
  }

  // ----- Routes of content URLs -----

  lemma {:induction false} TakeNameOf(name: string, rest: string)
    requires SLASH !in name && (rest == [] || rest[0] == SLASH)
    ensures TakeName(name + rest) == name
  {
    if name == [] {
      assert name + rest == rest;
    } else {
      assert (name + rest)[1..] == name[1..] + rest;
      TakeNameOf(name[1..], rest);
    }
  }

  // A name and what follows it.
  lemma NamesOfJoin(name: string, rest: string)
    requires name != [] && SLASH !in name
    requires rest == [] || (rest[0] == SLASH && !AllSlashes(rest))
    ensures Names(name + rest) == [name] + Names(rest)
  {
    TakeNameOf(name, rest);
    assert (name + rest)[|name|..] == rest;
    assert (name + rest)[0] == name[0];
  }

  lemma {:induction false} NoQuery(s: string)
    requires QUERY !in s
    ensures TargetPath(s) == s
  {
    if s != [] {
      NoQuery(s[1..]);
    }
  }

  // "/service/name" goes to the service, with the name as the path below it.
  lemma ServiceRoute(service: string, name: string)
    requires service != [] && SLASH !in service && QUERY !in service
    requires name != [] && SLASH !in name && QUERY !in name
    ensures TargetPath([SLASH] + service + [SLASH] + name) == [SLASH] + service + [SLASH] + name
    ensures Names([SLASH] + service + [SLASH] + name) == [service, name]
    ensures JoinAll("", [name]) == name
  {
    hide Names, JoinAll, TargetPath;
    var tail := [SLASH] + name;
    var target := [SLASH] + service + tail;
    assert target == [SLASH] + service + [SLASH] + name;
    NoQuery(target);
    NamesAfterSlash(service + tail);
    assert [SLASH] + (service + tail) == target;
    assert tail[1] == name[0];
    NamesOfJoin(service, tail);
    NamesAfterSlash(name);
    assert name + [] == name;
    NamesOfJoin(name, []);
    JoinOne(name);
  }

  lemma NamesAfterSlash(s: string)
    ensures Names([SLASH] + s) == Names(s)
  {
    assert ([SLASH] + s)[1..] == s;
  }

  lemma JoinOne(name: string)
    ensures JoinAll("", [name]) == name && Names("") == []
  {
    assert [name][..0] == [];
  }

  // The first name selects the service, and a second one is the path below it;
  // a query changes nothing, and no name at all is the index.
  lemma RoutesAre(service: string, name: string, query: string)
    requires service != [] && SLASH !in service && QUERY !in service
    requires name != [] && SLASH !in name && QUERY !in name
    requires query == [] || query[0] == QUERY
    ensures RouteOf("/" + service + "/" + name + query)
            == if service == "upnp" then ToUpnp(name) else if service == "content" then ToContent(name) else NoService
    ensures RouteOf("/" + query) == Index && RouteOf(query) == Index
  {
    hide Names, JoinAll, TargetPath;
    var target := [SLASH] + service + [SLASH] + name;
    assert "/" == [SLASH];
    ServiceRoute(service, name);
    QueryCut(target, query);
    assert [service, name][1..] == [name];
    QueryCut([SLASH], query);
    QueryCut([], query);
    assert [] + query == query;
    NamesAfterSlash([]);
    assert [SLASH] + [] == [SLASH];
    JoinOne(name);
  }

  // Names one after the other, each after a slash.
  function Slashed(names: seq<string>): string {
    if names == [] then "" else Slashed(names[..|names| - 1]) + [SLASH] + names[|names| - 1]
  }

  predicate PlainNames(names: seq<string>) {
    forall i :: 0 <= i < |names| ==> names[i] != [] && SLASH !in names[i] && QUERY !in names[i]
  }

  lemma {:induction false} SlashedCons(name: string, rest: seq<string>)
    ensures Slashed([name] + rest) == [SLASH] + name + Slashed(rest)
    decreases |rest|
  {
    if rest == [] {
      assert [name] + rest == [name] && [name][..0] == [];
    } else {
      var n := |rest| - 1;
      assert ([name] + rest)[..n + 1] == [name] + rest[..n];
      SlashedCons(name, rest[..n]);
      assert ([SLASH] + name + Slashed(rest[..n])) + [SLASH] + rest[n]
             == [SLASH] + name + (Slashed(rest[..n]) + [SLASH] + rest[n]);
    }
  }

  lemma {:induction false} NamesOfSlashed(names: seq<string>)
    requires PlainNames(names)
    ensures Names(Slashed(names)) == names && QUERY !in Slashed(names)
    ensures names != [] ==> Slashed(names) != [] && Slashed(names)[0] == SLASH && !AllSlashes(Slashed(names))
    decreases |names|
  {
    hide Names;
    if names == [] {
      JoinOne("");
    } else {
      var name, rest := names[0], names[1..];
      assert names == [name] + rest;
      assert PlainNames(rest);
      SlashedCons(name, rest);
      NamesOfSlashed(rest);
      assert [SLASH] + name + Slashed(rest) == [SLASH] + (name + Slashed(rest));
      NamesAfterSlash(name + Slashed(rest));
      if rest == [] {
        assert name + Slashed(rest) == name + [];
      }
      NamesOfJoin(name, Slashed(rest));
      assert Slashed(names)[1] == name[0];
    }
  }

  lemma {:induction false} JoinsSlashed(names: seq<string>)
    requires PlainNames(names) && names != []
    ensures Slashed(names) == [SLASH] + JoinAll("", names)
    ensures JoinAll("", names) != [] && JoinAll("", names)[|JoinAll("", names)| - 1] != SLASH
    decreases |names|
  {
    var n := |names| - 1;
    var front, last := names[..n], names[n];
    assert last[|last| - 1] in last;
    assert names == front + [last];
    JoinNext(front, last);
    if n == 0 {
      assert front == [];
      JoinNext([], last);
    } else {
      assert PlainNames(front);
      JoinsSlashed(front);
      hide JoinAll, Slashed, PlainNames;
      var path := JoinAll("", front);
      assert Join(path, last) == path + [SLASH] + last;
      assert ([SLASH] + path) + [SLASH] + last == [SLASH] + (path + [SLASH] + last);
      SlashedNext(front, last);
    }
  }

  lemma SlashedNext(names: seq<string>, name: string)
    ensures Slashed(names + [name]) == Slashed(names) + [SLASH] + name
  {
    assert (names + [name])[..|names|] == names;
  }

  // A path of any length: the first name selects the service, and the others
  // are the path below it.
  lemma PathRoutesAre(service: string, names: seq<string>, query: string)
    requires PlainNames([service] + names) && names != []
    requires query == [] || query[0] == QUERY
    ensures
      var subPath := Slashed(names)[1..];
      RouteOf("/" + service + Slashed(names) + query)
      == if service == "upnp" then ToUpnp(subPath) else if service == "content" then ToContent(subPath) else NoService
  {
    hide Names, JoinAll, TargetPath, Slashed;
    SlashedCons(service, names);
    NamesOfSlashed([service] + names);
    assert "/" + service + Slashed(names) + query == Slashed([service] + names) + query;
    QueryCut(Slashed([service] + names), query);
    assert PlainNames(names) by {
      assert forall i :: 0 <= i < |names| ==> names[i] == ([service] + names)[i + 1];
    }
    JoinsSlashed(names);
    assert ([service] + names)[1..] == names;
    assert ([SLASH] + JoinAll("", names))[1..] == JoinAll("", names);
  }

  lemma {:induction false} QueryCut(path: string, query: string)
    requires QUERY !in path && (query == [] || query[0] == QUERY)
    ensures TargetPath(path + query) == path
  {
    if path == [] {
      assert path + query == query;
    } else {
      assert (path + query)[1..] == path[1..] + query;
      QueryCut(path[1..], query);
    }
  }

  // A content URL leads to the content service, which reads the same id back.
  lemma ContentRoute(id: int)
    requires 0 <= id <= INT64_MAX
    ensures RouteOf("/content/" + FormatInt(id)) == ToContent(FormatInt(id))
    ensures ParseInt64(FormatInt(id)) == Some(id)
  {
    hide *;
    ParseFormatInt(id);
    FormatPlain(id);
    ContentTarget(FormatInt(id));
    RoutesAre("content", FormatInt(id), []);
  }

  lemma ContentTarget(name: string)
    ensures "/" + "content" + "/" + name + [] == "/content/" + name
    ensures SLASH !in "content" && QUERY !in "content"
  {
  }

  lemma FormatPlain(id: int)
    requires 0 <= id
    ensures FormatInt(id) != [] && SLASH !in FormatInt(id) && QUERY !in FormatInt(id)
  {
    DigitsOnly(FormatInt(id));
  }

  lemma DigitsOnly(s: string)
    requires AllDigits(s)
    ensures SLASH !in s && QUERY !in s
  {
  }
}
