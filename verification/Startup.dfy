// Starting the server: opening the database and, when it is new, scanning
// every configured directory with one scanner. And answering a browse request
// while other requests or scans commit.
module Startup {
  import opened Wrappers
  import opened Text
  import opened Keys
  import opened Records
  import opened KeyValue
  import opened StoreModel
  import opened StoreService
  import opened Folders
  import opened ScanPlan
  import opened MovieScanner
  import opened StoreInvariant
  import opened StoreRuns
  import opened ScanVideos
  import opened ScanSessions
  import opened ScanSize
  import opened FailedWrites
  import opened Didl

  datatype DirectoryConfig = DirectoryConfig(path: string, entries: seq<FsEntry>, config: LibraryConfig)

  // The scans of a start-up, all by the same scanner.
  function CallsOf(directories: seq<DirectoryConfig>): (calls: seq<Call>)
    ensures |calls| == |directories|
    ensures forall i :: 0 <= i < |directories| ==>
              calls[i] == Call(0, directories[i].path, directories[i].entries, directories[i].config)
  {
    seq(|directories|, i requires 0 <= i < |directories| =>
      Call(0, directories[i].path, directories[i].entries, directories[i].config))
  }

  function NewSession(outcomes: seq<bool>): Session {
    Session(Disk(FreshStore(), LaterOutcomes(outcomes), None), map[], [], [])
  }

  ghost predicate SomeCallRaises(calls: seq<Call>, start: Session) {
    exists n :: 0 <= n < |calls| && CallRaises(calls[n], RunCalls(calls[..n], start))
  }

  // What is left in the store when the server starts to serve, or stops on an
  // exception: a consistent library, whatever writes failed. When none failed,
  // the objects of a new library are those expected of all directories; its items
  // are their videos, each once. It stops on an exception exactly when
  // the root is not written or a scan raises as CallRaises says. The 64-bit ids
  // suffice for trees of the size required.
  method OpenAndScan(store: StoreService, existing: Option<seq<Entry>>, outcomes: seq<bool>,
                     directories: seq<DirectoryConfig>)
    returns (raised: Option<StoreError>)
    requires existing.Some? ==> Sorted(existing.value)
    requires existing.None? ==>
               ObjectsNeeded(CallsOf(directories)) < INT64_MAX && ResourcesNeeded(CallsOf(directories)) <= INT64_MAX
    modifies store
    ensures store.Valid()
    ensures existing.Some? ==> raised.None? && store.db.entries == existing.value
    ensures existing.None? && NextOutcome(outcomes) ==> Consistent(store.db.Contents())
    ensures existing.None? ==>
      (raised.Some? <==> !NextOutcome(outcomes) || SomeCallRaises(CallsOf(directories), NewSession(outcomes)))
    ensures existing.None? && NoFailures(outcomes) ==>
      && raised.None?
      && SessionOk(RunCalls(CallsOf(directories), NewSession(outcomes)))
      && store.db.Contents() == RunCalls(CallsOf(directories), NewSession(outcomes)).disk.store
      && LibraryObjects(store.db.Contents()) == LibraryOf(CallsOf(directories))
      && VideosAmong(LibraryObjects(store.db.Contents())) == Somes(ScannedByCalls(CallsOf(directories)))
    ensures (forall i :: 0 <= i < |directories| ==> DistinctNames(directories[i].entries)) ==>
              multiset(ScannedByCalls(CallsOf(directories))) == multiset(VideosOfCalls(CallsOf(directories)))
  {
    hide SessionOk, RunCalls, RunCall, Consistent, FreshStore, AsMap, Headroom, ObjectsNeeded, ResourcesNeeded,
      LibraryObjects, LibraryOf, VideosAmong, Somes, ScannedByCalls, VideosOfCalls, DistinctNames, SomeCallRaises;
    ghost var calls := CallsOf(directories);
    FreshStoreConsistent();
    CallsScanAllVideos(calls);
    LibraryVideos(calls);
    var existed := store.OpenDb(existing, outcomes);
    if existed.Err? {
      assert !outcomes[0];
      return Some(existed.error);
    }
    if existed.value {
      return None;
    }
    FreshHeadroom(calls);
    if NoFailures(outcomes) {
      FreshSession(LaterOutcomes(outcomes));
      NewLibraryIs(calls, LaterOutcomes(outcomes));
    }
    raised := ScanDirectories(store, directories, NewSession(outcomes));
  }

  // The scans of a new database, until one raises.
  method ScanDirectories(store: StoreService, directories: seq<DirectoryConfig>, ghost start: Session)
    returns (raised: Option<StoreError>)
    requires store.Valid() && start.disk == store.State() && start.memory == map[] && Consistent(start.disk.store)
    requires Headroom(CallsOf(directories), start.disk.store)
    modifies store.db
    ensures store.Valid() && store.db == old(store.db) && Consistent(store.db.Contents())
    ensures raised.Some? <==> SomeCallRaises(CallsOf(directories), start)
    ensures SessionOk(start) ==>
      && raised.None?
      && SessionOk(RunCalls(CallsOf(directories), start))
      && store.db.Contents() == RunCalls(CallsOf(directories), start).disk.store
  {
    hide SessionOk, RunCalls, RunCall, Consistent, AsMap, IdsBelowMaximum, Headroom, CallRaises;
    var scanner := new MovieScanner(store);
    ghost var calls, s := CallsOf(directories), start;
    NoCalls(start);
    var i := 0;
    assert calls[..0] == [] && calls[0..] == calls;
    while i < |directories|
      invariant 0 <= i <= |directories|
      invariant store.Valid() && store.db == old(store.db) && scanner.store == store && fresh(scanner)
      invariant s == RunCalls(calls[..i], start) && Follows(scanner, s)
      invariant SessionOk(start) ==> SessionOk(s)
      invariant Reached(s) && forall n :: 0 <= n < i ==> !CallRaises(calls[n], RunCalls(calls[..n], start))
      invariant Headroom(calls[i..], s.disk.store)
    {
      assert calls[i..][0] == calls[i] && calls[i..][1..] == calls[i + 1..];
      HeadroomBounds(calls[i..], s.disk.store);
      HeadroomLeft(calls[i..], s);
      assert calls[..i + 1] == calls[..i] + [calls[i]];
      RunCallsNext(calls[..i], calls[i], start);
      raised := ScanOne(scanner, directories[i], s);
      if raised.Some? {
        return;
      }
      s := RunCall(calls[i], s);
      i := i + 1;
    }
    assert calls[..|calls|] == calls;
    return None;
  }

  // The session is in the state of the scanner and its database.
  ghost predicate Follows(scanner: MovieScanner, s: Session)
    reads scanner, scanner.store, scanner.store.db
  {
    && scanner.Valid() && s.disk == scanner.store.State() && MemoryOf(s, 0) == scanner.moviesFolder
    && Consistent(s.disk.store)
  }

  method ScanOne(scanner: MovieScanner, directory: DirectoryConfig, ghost s: Session)
    returns (raised: Option<StoreError>)
    requires Follows(scanner, s) && IdsBelowMaximum(s.disk.store)
    modifies scanner, scanner.store.db
    ensures scanner.store.db == old(scanner.store.db)
    ensures scanner.Valid() && Consistent(scanner.store.db.Contents())
    ensures Reached(s) ==>
              && (raised.Some? <==> CallRaises(Call(0, directory.path, directory.entries, directory.config), s))
              && Reached(RunCall(Call(0, directory.path, directory.entries, directory.config), s))
    ensures raised.None? ==>
              Follows(scanner, RunCall(Call(0, directory.path, directory.entries, directory.config), s))
    ensures SessionOk(s) ==>
              raised.None? && SessionOk(RunCall(Call(0, directory.path, directory.entries, directory.config), s))
  {
    hide SessionOk, RunCall, Consistent, AsMap, IdsBelowMaximum, Scan, Reached, CallRaises;
    ghost var call := Call(0, directory.path, directory.entries, directory.config);
    CallEffect(call, s);
    if Reached(s) {
      CallRaisesExactly(call, s);
    }
    if SessionOk(s) {
      CallSucceedsToo(call, s);
    }
    raised := scanner.ScanAll(directory.path, directory.entries, directory.config);
  }

  lemma CallEffect(call: Call, s: Session)
    requires s.disk.raised.None? && Consistent(s.disk.store)
    ensures var r := Scan(s.disk, MemoryOf(s, call.scanner), call.path, call.entries, call.config);
            && RunCall(call, s).disk == r.disk.(raised := None)
            && MemoryOf(RunCall(call, s), call.scanner) == r.moviesFolder
            && Consistent(r.disk.store)
  {
    hide Scan, Written, Consistent;
    ScanKeepsConsistent(s.disk, MemoryOf(s, call.scanner), call.path, call.entries, call.config);
  }

  lemma CallSucceedsToo(call: Call, s: Session)
    requires SessionOk(s)
    ensures Scan(s.disk, MemoryOf(s, call.scanner), call.path, call.entries, call.config).disk.raised.None?
    ensures SessionOk(RunCall(call, s))
  {
    hide SessionOk, Scan, Written, RunCall;
    CallUsesMovies(call, s);
    CallSucceeds(call, s);
  }

  datatype BrowseFault = InvalidFlag | Failed(cause: BrowseError)

  function Answer(reply: Result<BrowseReply, BrowseError>): Result<BrowseReply, BrowseFault> {
    if reply.Err? then Err(Failed(reply.error)) else Ok(reply.value)
  }

  // A browse request for the children of a container or for one object:
  // whatever is committed between the listing and the response, the response
  // shows the library as it was listed.
  method HandleBrowse(store: StoreService, id: int, flag: string, commits: seq<Batch>,
                      startIndex: nat, requestedCount: nat, base: string)
    returns (r: Result<BrowseReply, BrowseFault>)
    requires store.Valid() && startIndex < UINT32_SIZE && requestedCount < UINT32_SIZE
    modifies store.db
    ensures store.Valid() && store.db == old(store.db)
    ensures flag == "BrowseDirectChildren" ==>
      match ReadContainer(old(store.db.Contents()), id)
      case Err(e) => r == Err(Failed(Unreadable(e)))
      case Ok(container) =>
        r == Answer(ReplyOf(old(store.db.Contents()), ChildKeys(container), startIndex, requestedCount, base))
    ensures flag == "BrowseMetadata" ==>
      r == Answer(ReplyOf(old(store.db.Contents()), [ObjectKey(id)], startIndex, requestedCount, base))
    ensures flag != "BrowseDirectChildren" && flag != "BrowseMetadata" ==> r == Err(InvalidFlag)
  {
    hide ReplyOf, AsMap, ReadContainer;
    var view: ListResultView;
    if flag == "BrowseDirectChildren" {
      var listing := store.List(id);
      if listing.Err? {
        return Err(Failed(Unreadable(listing.error)));
      }
      view := listing.value;
    } else if flag == "BrowseMetadata" {
      view := store.Get(id);
    } else {
      return Err(InvalidFlag);
    }
    for i := 0 to |commits|
      invariant store.Valid() && store.db == old(store.db)
    {
      var raised := store.PutItems(commits[i].parent, commits[i].items, commits[i].resources);
    }
    var reply := BrowseResponse(view, startIndex, requestedCount, base);
    r := Answer(reply);
  }
}
