// Scans whose writes may fail: exactly when one raises, in any session.
module FailedWrites {
  import opened Wrappers
  import opened Text
  import opened Keys
  import opened Records
  import opened KeyValue
  import opened StoreModel
  import opened StoreService
  import opened Folders
  import opened ScanPlan
  import opened MovieScanner
  import opened StoreInvariant
  import opened StoreRuns
  import opened Expected
  import opened ScanViews
  import opened ScanSessions

  // ----- Runs -----

  // Some batch goes under one of these containers.
  ghost predicate UnderAny(batches: seq<Batch>, ids: set<int>) {
    exists j :: 0 <= j < |batches| && batches[j].parent in ids
  }

  // Some batch goes under a container of an earlier batch whose write fails.
  ghost predicate UnderFailed(batches: seq<Batch>, outcomes: seq<bool>) {
    exists i, j :: 0 <= i < j < |batches| && Fails(outcomes, i) && batches[j].parent in Containers(batches[i].items)
  }

  lemma UnderAnyNext(batches: seq<Batch>, ids: set<int>)
    requires batches != []
    ensures UnderAny(batches, ids) <==> batches[0].parent in ids || UnderAny(batches[1..], ids)
  {
    if j :| 0 <= j < |batches| && batches[j].parent in ids && j > 0 {
      assert batches[1..][j - 1] == batches[j];
    }
    if j :| 0 <= j < |batches[1..]| && batches[1..][j].parent in ids {
      assert batches[j + 1].parent in ids;
    }
  }

  lemma UnderAnyOf(batches: seq<Batch>, ids: set<int>, more: set<int>)
    ensures UnderAny(batches, ids + more) <==> UnderAny(batches, ids) || UnderAny(batches, more)
    ensures !UnderAny(batches, {}) && !UnderAny([], ids)
  {
  }

  lemma UnderFailedNext(batches: seq<Batch>, outcomes: seq<bool>)
    requires batches != []
    ensures UnderFailed(batches, outcomes) <==>
            || (Fails(outcomes, 0) && UnderAny(batches[1..], Containers(batches[0].items)))
            || UnderFailed(batches[1..], LaterOutcomes(outcomes))
  {
    hide Containers;
    var rest, later := batches[1..], LaterOutcomes(outcomes);
    if i, j :| 0 <= i < j < |batches| && Fails(outcomes, i) && batches[j].parent in Containers(batches[i].items) {
      assert rest[j - 1] == batches[j];
      if i > 0 {
        assert rest[i - 1] == batches[i] && Fails(later, i - 1);
      }
    }
    if Fails(outcomes, 0) && UnderAny(rest, Containers(batches[0].items)) {
      var j :| 0 <= j < |rest| && rest[j].parent in Containers(batches[0].items);
      assert batches[j + 1] == rest[j];
    }
    if i, j :| 0 <= i < j < |rest| && Fails(later, i) && rest[j].parent in Containers(rest[i].items) {
      assert Fails(outcomes, i + 1) && batches[i + 1] == rest[i] && batches[j + 1] == rest[j];
    }
  }

  lemma NothingUnderFailed(batches: seq<Batch>, outcomes: seq<bool>)
    requires |batches| <= 1
    ensures !UnderFailed(batches, outcomes)
  {
  }

  // Containers that earlier failed writes left out of the store.
  ghost predicate Missing(lost: set<int>, store: Store, nextObject: int) {
    forall id :: id in lost ==> ObjectKey(id) !in store && id < nextObject
  }

  // What a committed or failed batch does to the known and the missing containers.
  lemma NextMissing(batch: Batch, known: set<int>, lost: set<int>, disk: Disk, nextObject: int, nextResource: int)
    requires disk.raised.None? && Consistent(disk.store) && Above(disk.store, nextObject, nextResource)
    requires BatchOk(batch, nextObject, nextResource) && RootBatchOk(batch, disk.store)
    requires AllStored(known - lost, disk.store) && Missing(lost, disk.store, nextObject)
    requires batch.parent in known - lost
    ensures var after := Commit(batch, disk);
            var lost' := if Fails(disk.outcomes, 0) then lost + Containers(batch.items) else lost;
            && after.raised.None? && after.outcomes == LaterOutcomes(disk.outcomes)
            && AllStored((known + Containers(batch.items)) - lost', after.store)
            && Missing(lost', after.store, nextObject + |batch.items|)
            && Grown(disk.store, after.store)
  {
    hide Consistent, Commit, Step, Grown, Holds, BatchOk, RootBatchOk, AllStored, Containers;
    OneStored(known - lost, batch.parent, disk.store);
    CommitEither(batch, disk, nextObject, nextResource);
    var after := Commit(batch, disk);
    if Fails(disk.outcomes, 0) {
      NothingHappens(disk.store, nextObject, nextResource);
      StoredSubset(known - lost, (known + Containers(batch.items)) - (lost + Containers(batch.items)), disk.store);
      ContainersNumbered(batch, nextObject, nextResource);
    } else {
      StepHolds(batch, disk.store, after.store, nextObject, nextResource);
      StepGrows(batch, disk.store, after.store, nextObject, nextResource);
      NewlyKnown(batch, known - lost, disk.store, after.store, nextObject, nextResource);
      StoredSubset((known - lost) + Containers(batch.items), (known + Containers(batch.items)) - lost, after.store);
      MissingStays(batch, lost, disk.store, after.store, nextObject, nextResource);
    }
  }

  lemma StoredSubset(all: set<int>, some: set<int>, store: Store)
    requires AllStored(all, store) && some <= all
    ensures AllStored(some, store)
  {
  }

  lemma ContainersNumbered(batch: Batch, nextObject: int, nextResource: int)
    requires BatchOk(batch, nextObject, nextResource)
    ensures forall id :: id in Containers(batch.items) ==> nextObject <= id < nextObject + |batch.items|
  {
    hide Partition, ParentsMatch;
  }

  lemma MissingStays(batch: Batch, lost: set<int>, before: Store, after: Store, nextObject: int, nextResource: int)
    requires Missing(lost, before, nextObject)
    requires Holds(batch.items, batch.resources, before, after, nextObject, nextResource)
    ensures Missing(lost, after, nextObject + |batch.items|)
  {
  }

  // A run raises exactly when a batch goes under a container that is missing
  // from the start or was to be added by a batch whose write failed; it is
  // always the container that is not found.
  lemma {:induction false} RunRaisesExactly(batches: seq<Batch>, known: set<int>, lost: set<int>, disk: Disk,
                                            nextObject: int, nextResource: int)
    requires disk.raised.None? && Consistent(disk.store) && Above(disk.store, nextObject, nextResource)
    requires RunOk(batches, known, nextObject, nextResource)
    requires AllStored(known - lost, disk.store) && Missing(lost, disk.store, nextObject)
    ensures var after := Execute(batches, disk);
            && (after.raised.Some? <==> UnderAny(batches, lost) || UnderFailed(batches, disk.outcomes))
            && (after.raised.Some? ==> after.raised.value == ContainerNotFound)
            && Grown(disk.store, after.store)
    decreases |batches|
  {
    hide Consistent, Above, Commit, BatchOk, Containers, Grown, AllStored, Missing, UnderAny, UnderFailed;
    if batches == [] {
      UnderAnyOf(batches, lost, {});
      NothingUnderFailed(batches, disk.outcomes);
      NothingHappens(disk.store, nextObject, nextResource);
    } else {
      var batch, rest := batches[0], batches[1..];
      UnderAnyNext(batches, lost);
      UnderFailedNext(batches, disk.outcomes);
      if batch.parent in lost {
        MissingParent(batch, lost, disk, nextObject);
        ExecuteRaised(rest, Commit(batch, disk));
        NothingHappens(disk.store, nextObject, nextResource);
      } else {
        NextMissing(batch, known, lost, disk, nextObject, nextResource);
        CommitKeepsConsistent(batch, disk, nextObject, nextResource);
        var next := Commit(batch, disk);
        var lost' := if Fails(disk.outcomes, 0) then lost + Containers(batch.items) else lost;
        UnderAnyOf(rest, lost, Containers(batch.items));
        RunRaisesExactly(rest, known + Containers(batch.items), lost', next,
                         nextObject + |batch.items|, nextResource + |batch.resources|);
        GrownTransitive(disk.store, next.store, Execute(rest, next).store);
      }
    }
  }

  lemma MissingParent(batch: Batch, lost: set<int>, disk: Disk, nextObject: int)
    requires batch.parent in lost && Missing(lost, disk.store, nextObject)
    ensures Commit(batch, disk) == disk.(raised := Some(ContainerNotFound))
  {
  }

  // A run that starts under a missing container is refused at once.
  lemma RefusedAtOnce(batches: seq<Batch>, parent: int, disk: Disk, nextObject: int, nextResource: int)
    requires disk.raised.None? && ObjectKey(parent) !in disk.store
    requires RunOk(batches, {parent}, nextObject, nextResource)
    ensures Execute(batches, disk) == if batches == [] then disk else disk.(raised := Some(ContainerNotFound))
    ensures batches != [] ==> UnderAny(batches, {parent})
  {
    hide BatchOk, Containers;
    if batches != [] {
      ExecuteRaised(batches[1..], Commit(batches[0], disk));
    }
  }

  // ----- What is stored -----

  // All records of a batch are stored.
  ghost predicate Present(batch: Batch, store: Store) {
    && (forall i :: 0 <= i < |batch.items| ==>
          HasObject(store, batch.items[i].id) && SameButChildren(batch.items[i], Obj(store, batch.items[i].id)))
    && (forall i :: 0 <= i < |batch.resources| ==>
          ResourceKey(batch.resources[i].key) in store
          && store[ResourceKey(batch.resources[i].key)] == ResourceRecord(batch.resources[i].resource))
  }

  // None of its records is.
  ghost predicate Absent(batch: Batch, store: Store) {
    && (forall i :: 0 <= i < |batch.items| ==> ObjectKey(batch.items[i].id) !in store)
    && (forall i :: 0 <= i < |batch.resources| ==> ResourceKey(batch.resources[i].key) !in store)
  }

  // A batch is stored as a whole when its write succeeds, and else not at all.
  ghost predicate StoredIfWritten(batches: seq<Batch>, outcomes: seq<bool>, store: Store) {
    forall j :: 0 <= j < |batches| ==>
      if Fails(outcomes, j) then Absent(batches[j], store) else Present(batches[j], store)
  }

  // No keys below the counters are new.
  ghost predicate NewFrom(before: Store, after: Store, nextObject: int, nextResource: int) {
    && (forall id :: ObjectKey(id) in after && id < nextObject ==> ObjectKey(id) in before)
    && (forall id :: ResourceKey(id) in after && id < nextResource ==> ResourceKey(id) in before)
  }

  // A put_items call that raises nothing, and what it leaves.
  lemma CommitStores(batch: Batch, disk: Disk, nextObject: int, nextResource: int)
    requires disk.raised.None? && Consistent(disk.store) && Above(disk.store, nextObject, nextResource)
    requires BatchOk(batch, nextObject, nextResource) && RootBatchOk(batch, disk.store)
    requires Commit(batch, disk).raised.None?
    ensures var after := Commit(batch, disk);
            && after.outcomes == LaterOutcomes(disk.outcomes) && Grown(disk.store, after.store)
            && NewFrom(disk.store, after.store, nextObject, nextResource)
            && (if Fails(disk.outcomes, 0) then Absent(batch, after.store) else Present(batch, after.store))
  {
    hide Consistent, Grown, Holds, BatchOk, RootBatchOk, Step, Present, Absent, NewFrom, Above;
    CommittedParent(batch, disk);
    CommitEither(batch, disk, nextObject, nextResource);
    var after := Commit(batch, disk);
    if Fails(disk.outcomes, 0) {
      NothingHappens(disk.store, nextObject, nextResource);
      NewIsAbsent(batch, disk.store, nextObject, nextResource);
      NothingNew(disk.store, nextObject, nextResource);
    } else {
      StepGrows(batch, disk.store, after.store, nextObject, nextResource);
      StepHolds(batch, disk.store, after.store, nextObject, nextResource);
      HeldIsPresent(batch, disk.store, after.store, nextObject, nextResource);
    }
  }

  lemma CommittedParent(batch: Batch, disk: Disk)
    requires disk.raised.None? && Commit(batch, disk).raised.None?
    ensures AllStored({batch.parent}, disk.store)
  {
    hide UpdateAll;
  }

  lemma NothingNew(store: Store, nextObject: int, nextResource: int)
    ensures NewFrom(store, store, nextObject, nextResource)
  {
  }

  lemma NewIsAbsent(batch: Batch, store: Store, nextObject: int, nextResource: int)
    requires Above(store, nextObject, nextResource) && BatchOk(batch, nextObject, nextResource)
    ensures Absent(batch, store)
  {
    hide Partition, ParentsMatch, NewObject;
  }

  lemma HeldIsPresent(batch: Batch, before: Store, after: Store, nextObject: int, nextResource: int)
    requires BatchOk(batch, nextObject, nextResource)
    requires Holds(batch.items, batch.resources, before, after, nextObject, nextResource)
    ensures Present(batch, after) && NewFrom(before, after, nextObject, nextResource)
  {
    hide Partition, ParentsMatch, NewObject, SameButChildren;
    forall i | 0 <= i < |batch.items|
      ensures HasObject(after, batch.items[i].id) && SameButChildren(batch.items[i], Obj(after, batch.items[i].id))
    {
      assert batch.items[i].id - nextObject == i;
    }
  }

  // Later batches leave what a batch stored, and do not store it for it.
  lemma StaysStored(batch: Batch, before: Store, after: Store, nextObject: int, nextResource: int)
    requires BatchOk(batch, nextObject, nextResource) && Grown(before, after)
    requires NewFrom(before, after, nextObject + |batch.items|, nextResource + |batch.resources|)
    ensures Present(batch, before) ==> Present(batch, after)
    ensures Absent(batch, before) ==> Absent(batch, after)
  {
    hide Partition, ParentsMatch, NewObject;
  }

  lemma LaterIsNew(a: Store, b: Store, c: Store, nextObject: int, nextResource: int, objects: nat, resources: nat)
    requires NewFrom(a, b, nextObject, nextResource)
    requires NewFrom(b, c, nextObject + objects, nextResource + resources)
    ensures NewFrom(a, c, nextObject, nextResource)
  {
  }

  // A run that raises nothing has stored exactly the batches whose write
  // succeeded. Up to where a run raises, this is so for the batches before.
  lemma {:induction false} RunStoresWritten(batches: seq<Batch>, known: set<int>, disk: Disk, nextObject: int,
                                            nextResource: int)
    requires disk.raised.None? && Consistent(disk.store) && Above(disk.store, nextObject, nextResource)
    requires RunOk(batches, known, nextObject, nextResource)
    requires Execute(batches, disk).raised.None?
    ensures var after := Execute(batches, disk).store;
            && Grown(disk.store, after) && NewFrom(disk.store, after, nextObject, nextResource)
            && StoredIfWritten(batches, disk.outcomes, after)
    decreases |batches|
  {
    hide Consistent, Above, Commit, BatchOk, Containers, Grown, NewFrom, Present, Absent;
    if batches == [] {
      NothingHappens(disk.store, nextObject, nextResource);
      NothingNew(disk.store, nextObject, nextResource);
    } else {
      var batch, rest, next := batches[0], batches[1..], Commit(batches[0], disk);
      var no, nr := nextObject + |batch.items|, nextResource + |batch.resources|;
      if next.raised.Some? {
        ExecuteRaised(rest, next);
      }
      CommitStores(batch, disk, nextObject, nextResource);
      CommitKeepsConsistent(batch, disk, nextObject, nextResource);
      RunStoresWritten(rest, known + Containers(batch.items), next, no, nr);
      var after := Execute(rest, next).store;
      GrownTransitive(disk.store, next.store, after);
      LaterIsNew(disk.store, next.store, after, nextObject, nextResource, |batch.items|, |batch.resources|);
      StaysStored(batch, next.store, after, nextObject, nextResource);
      forall j | 0 <= j < |batches|
        ensures if Fails(disk.outcomes, j) then Absent(batches[j], after) else Present(batches[j], after)
      {
        if j > 0 {
          assert batches[j] == rest[j - 1] && (Fails(disk.outcomes, j) <==> Fails(next.outcomes, j - 1));
        }
      }
    }
  }

  // ----- Scans -----

  // A movies folder whose write failed: the scanner remembers an id that the
  // store does not have, nor anything else below the root.
  ghost predicate LostFolder(store: Store, remembered: int) {
    && HasObject(store, ROOT_ID) && ChildKeys(Obj(store, ROOT_ID)) == []
    && remembered == NextId(store, ObjectKind)
  }

  // What a scanner remembers: nothing, the movies folder, or a lost one.
  ghost predicate MemoryOk(store: Store, remembered: int) {
    Remembers(store, remembered) || LostFolder(store, remembered)
  }

  lemma LostIsMissing(store: Store, remembered: int)
    requires Consistent(store) && LostFolder(store, remembered)
    ensures remembered > 0 && ObjectKey(remembered) !in store && !Remembers(store, remembered)
  {
    ConsistentParts(store);
    CountersAbove(store);
  }

  // The three ways a scan starts out: with a movies folder, with a lost one,
  // and by making one.
  datatype Start = Known | Lost | Makes

  ghost function StartOf(disk: Disk, remembered: int): Start {
    if CreatesMovies(disk, remembered) then Makes
    else if LostFolder(disk.store, remembered) then Lost
    else Known
  }

  // When a scan raises: a batch goes under a container of an earlier batch
  // whose write failed, or anything at all goes under a lost movies folder.
  ghost predicate Raises(disk: Disk, remembered: int, written: seq<Batch>) {
    UnderFailed(written, disk.outcomes) || (LostFolder(disk.store, remembered) && written != [])
  }

  // A scan raises exactly then, for a container that is not found, whatever
  // the tree and the failed writes; what scanners remember stays as described.
  lemma ScanRaisesExactly(disk: Disk, remembered: int, path: string, entries: seq<FsEntry>, config: LibraryConfig)
    requires disk.raised.None? && Consistent(disk.store) && MemoryOk(disk.store, remembered)
    ensures var r := Scan(disk, remembered, path, entries, config);
            && (r.disk.raised.Some? <==> Raises(disk, remembered, Written(disk, remembered, path, entries, config)))
            && (r.disk.raised.Some? ==> r.disk.raised.value == ContainerNotFound)
            && MemoryOk(r.disk.store, r.moviesFolder)
            && (forall m :: MemoryOk(disk.store, m) ==> MemoryOk(r.disk.store, m))
  {
    hide Consistent, Above, RunOk, MoviesFolderOf, ScanBatches, Execute, Remembers, LostFolder, NextId, UnderFailed;
    var no, nr := NextId(disk.store, ObjectKind), NextId(disk.store, ResourceKind);
    var search := MoviesFolderOf(disk, remembered, no);
    SearchKeepsConsistent(disk, remembered);
    ScanBatchesOk(path, entries, config, search.moviesFolder, search.nextObject, nr);
    var batches := ScanBatches(path, entries, config, search.moviesFolder, search.nextObject, nr).batches;
    SearchIs(disk, remembered, no);
    match StartOf(disk, remembered)
    case Makes => MakingRaises(disk, remembered, batches);
    case Lost => LostRaises(disk, remembered, batches);
    case Known => KnownRaises(disk, remembered, batches);
  }

  lemma SearchIs(disk: Disk, remembered: int, no: int)
    requires Consistent(disk.store) && no == NextId(disk.store, ObjectKind)
    ensures var search := MoviesFolderOf(disk, remembered, no);
            match StartOf(disk, remembered)
            case Makes => search.moviesFolder == no && search.nextObject == no + 1
            case Lost => search.moviesFolder == remembered == no == search.nextObject
            case Known => search.nextObject == no
  {
    hide Consistent, FindMovies, Commit, NextId;
    FindMoviesFinds(disk.store);
    if LostFolder(disk.store, remembered) {
      LostIsMissing(disk.store, remembered);
    }
  }

  // What is to be shown of a scan that goes on with these batches.
  ghost predicate AsSaid(disk: Disk, remembered: int, batches: seq<Batch>) {
    var search := MoviesFolderOf(disk, remembered, NextId(disk.store, ObjectKind));
    var after := Execute(batches, search.disk);
    && (after.raised.Some? <==> Raises(disk, remembered, FirstBatches(disk, remembered) + batches))
    && (after.raised.Some? ==> after.raised.value == ContainerNotFound)
    && MemoryOk(after.store, search.moviesFolder)
    && (forall m :: MemoryOk(disk.store, m) ==> MemoryOk(after.store, m))
  }

  lemma LostRaises(disk: Disk, remembered: int, batches: seq<Batch>)
    requires disk.raised.None? && Consistent(disk.store) && StartOf(disk, remembered).Lost?
    requires RunOk(batches, {remembered}, NextId(disk.store, ObjectKind), NextId(disk.store, ResourceKind))
    ensures AsSaid(disk, remembered, batches)
  {
    hide Consistent, RunOk, Execute, Remembers, LostFolder, NextId, UnderFailed;
    LostIsMissing(disk.store, remembered);
    RefusedAtOnce(batches, remembered, disk, NextId(disk.store, ObjectKind), NextId(disk.store, ResourceKind));
    assert FirstBatches(disk, remembered) + batches == batches;
    NothingUnderFailed([], disk.outcomes);
  }

  lemma KnownRaises(disk: Disk, remembered: int, batches: seq<Batch>)
    requires disk.raised.None? && Consistent(disk.store)
    requires MemoryOk(disk.store, remembered) && StartOf(disk, remembered).Known?
    requires var search := MoviesFolderOf(disk, remembered, NextId(disk.store, ObjectKind));
             RunOk(batches, {search.moviesFolder}, NextId(disk.store, ObjectKind), NextId(disk.store, ResourceKind))
    ensures AsSaid(disk, remembered, batches)
  {
    hide Consistent, Above, RunOk, Execute, Remembers, LostFolder, NextId, UnderFailed, UnderAny, FindMovies, Grown,
      AllStored, Missing;
    var no, nr := NextId(disk.store, ObjectKind), NextId(disk.store, ResourceKind);
    ConsistentParts(disk.store);
    CountersAbove(disk.store);
    FindMoviesFinds(disk.store);
    var search := MoviesFolderOf(disk, remembered, no);
    MoviesIsStored(disk.store, search.moviesFolder);
    NothingMissing(disk.store, no);
    assert {search.moviesFolder} - {} == {search.moviesFolder};
    RunRaisesExactly(batches, {search.moviesFolder}, {}, disk, no, nr);
    UnderAnyOf(batches, {}, {});
    assert FirstBatches(disk, remembered) + batches == batches;
    var after := Execute(batches, disk).store;
    forall m | MemoryOk(disk.store, m) ensures MemoryOk(after, m) {
      NotLost(disk.store, search.moviesFolder, m);
      RemembersLater(disk.store, after, m);
    }
    RemembersLater(disk.store, after, search.moviesFolder);
  }

  lemma NothingMissing(store: Store, nextObject: int)
    ensures Missing({}, store, nextObject)
  {
  }

  // With a movies folder stored none is lost.
  lemma NotLost(store: Store, moviesFolder: int, m: int)
    requires moviesFolder > 0 && Remembers(store, moviesFolder)
    ensures !LostFolder(store, m)
  {
  }

  lemma MakingRaises(disk: Disk, remembered: int, batches: seq<Batch>)
    requires disk.raised.None? && Consistent(disk.store)
    requires MemoryOk(disk.store, remembered) && StartOf(disk, remembered).Makes?
    requires RunOk(batches, {NextId(disk.store, ObjectKind)}, NextId(disk.store, ObjectKind) + 1,
                   NextId(disk.store, ResourceKind))
    ensures AsSaid(disk, remembered, batches)
  {
    hide Consistent, Above, RunOk, Execute, Remembers, LostFolder, NextId, UnderFailed, UnderAny, FindMovies, Commit,
      Step, RootBatchOk, BatchOk, AllStored, Containers, Grown, Missing, Holds;
    var no, nr := NextId(disk.store, ObjectKind), NextId(disk.store, ResourceKind);
    var movies := MoviesBatch(no);
    ConsistentParts(disk.store);
    CountersAbove(disk.store);
    FindMoviesFinds(disk.store);
    MoviesBatchOk(disk.store, no, nr);
    RootStored(disk.store);
    CommitEither(movies, disk, no, nr);
    CommitKeepsConsistent(movies, disk, no, nr);
    var next := Commit(movies, disk);
    var written := FirstBatches(disk, remembered) + batches;
    assert written[0] == movies && written[1..] == batches;
    UnderFailedNext(written, disk.outcomes);
    LostIsNew(disk.store, no);
    assert no > 0;
    if Fails(disk.outcomes, 0) {
      LostIsMissing(disk.store, no);
      RefusedAtOnce(batches, no, next, no + 1, nr);
      UnderAnyOf(batches, {no}, {});
      NothingUnderFailed([], LaterOutcomes(disk.outcomes));
    } else {
      StepGrows(movies, disk.store, next.store, no, nr);
      MoviesStored(movies, disk.store, next.store, no, nr);
      MoviesIsStored(next.store, no);
      NothingMissing(next.store, no + 1);
      assert {no} - {} == {no};
      RunRaisesExactly(batches, {no}, {}, next, no + 1, nr);
      UnderAnyOf(batches, {}, {});
      var after := Execute(batches, next).store;
      RemembersLater(next.store, after, no);
      forall m | MemoryOk(disk.store, m) ensures MemoryOk(after, m) {
        NoneOrLost(disk.store, m);
        NoneRemembered(after, m);
      }
    }
  }

  // Before there is a movies folder, a scanner remembers none or the next id.
  lemma LostIsNew(store: Store, no: int)
    requires HasObject(store, ROOT_ID) && ChildKeys(Obj(store, ROOT_ID)) == [] && no == NextId(store, ObjectKind)
    ensures LostFolder(store, no)
    ensures forall m :: LostFolder(store, m) ==> m == no
  {
  }

  lemma NoneOrLost(store: Store, m: int)
    requires MemoryOk(store, m) && HasObject(store, ROOT_ID) && ChildKeys(Obj(store, ROOT_ID)) == []
    ensures m <= 0 || LostFolder(store, m)
  {
  }

  lemma NoneRemembered(store: Store, m: int)
    ensures m <= 0 ==> Remembers(store, m)
  {
  }

  // A scan that raises nothing has stored exactly the batches whose write
  // succeeded, the movies folder included.
  lemma ScanStoresWritten(disk: Disk, remembered: int, path: string, entries: seq<FsEntry>, config: LibraryConfig)
    requires disk.raised.None? && Consistent(disk.store)
    requires Scan(disk, remembered, path, entries, config).disk.raised.None?
    ensures StoredIfWritten(Written(disk, remembered, path, entries, config), disk.outcomes,
                            Scan(disk, remembered, path, entries, config).disk.store)
  {
    hide Consistent, Above, RunOk, ScanBatches, Execute, FindMovies, Commit, NextId, Present, Absent, NewFrom, Grown,
      BatchOk, RootBatchOk, Containers;
    var no, nr := NextId(disk.store, ObjectKind), NextId(disk.store, ResourceKind);
    var search := MoviesFolderOf(disk, remembered, no);
    SearchKeepsConsistent(disk, remembered);
    FindMoviesFinds(disk.store);
    ScanBatchesOk(path, entries, config, search.moviesFolder, search.nextObject, nr);
    var batches := ScanBatches(path, entries, config, search.moviesFolder, search.nextObject, nr).batches;
    if search.disk.raised.Some? {
      ExecuteRaised(batches, search.disk);
    }
    RunStoresWritten(batches, {search.moviesFolder}, search.disk, search.nextObject, nr);
    var written := Written(disk, remembered, path, entries, config);
    if CreatesMovies(disk, remembered) {
      ConsistentParts(disk.store);
      CountersAbove(disk.store);
      MoviesBatchOk(disk.store, no, nr);
      CommitStores(MoviesBatch(no), disk, no, nr);
      var after := Execute(batches, search.disk).store;
      StaysStored(MoviesBatch(no), search.disk.store, after, no, nr);
      forall j | 0 <= j < |written|
        ensures if Fails(disk.outcomes, j) then Absent(written[j], after) else Present(written[j], after)
      {
        if j > 0 {
          assert written[j] == batches[j - 1] && (Fails(disk.outcomes, j) <==> Fails(search.disk.outcomes, j - 1));
        }
      }
    } else {
      assert written == batches;
    }
  }

  // ----- Two scans with a failed write -----

  function OneMovie(): seq<FsEntry> {
    [RegularFile("a.mkv")]
  }

  lemma OneMovieIsVideo()
    ensures Collect("m", OneMovie(), VideoFile) != []
  {
    hide Collect, SortedNames;
    CollectedAre("m", OneMovie(), VideoFile);
    SortedNamesAre(OneMovie(), VideoFile);
    assert RegularFile("a.mkv") in OneMovie() && EndsWith("a.mkv", ".mkv");
  }

  lemma OneMovieBatches(config: LibraryConfig, parent: int, nextObject: int, nextResource: int)
    requires !config.useCollections
    ensures |ScanBatches("m", OneMovie(), config, parent, nextObject, nextResource).batches| == 1
  {
    OneMovieIsVideo();
    hide Collect, ItemsBatch, CollectionBatch, FolderArtwork, FolderNameFor;
    assert OneMovie()[..0] == [];
  }

  // With the write of the movies folder failing, the batch of the movie below
  // it raises. With the write of the movie failing, nothing raises, and the
  // movie is lost.
  lemma FailingScans()
    ensures
      var config := LibraryConfig(false, false);
      && Scan(Disk(FreshStore(), [false], None), -1, "m", OneMovie(), config).disk.raised == Some(ContainerNotFound)
      && Scan(Disk(FreshStore(), [true, false], None), -1, "m", OneMovie(), config).disk.raised.None?
  {
    var config := LibraryConfig(false, false);
    forall outcomes: seq<bool>
      ensures Scan(Disk(FreshStore(), outcomes, None), -1, "m", OneMovie(), config).disk.raised
              == if Fails(outcomes, 0) then Some(ContainerNotFound) else None
    {
      OneMovieRaises(outcomes, config);
    }
    assert Fails([false], 0) && !Fails([true, false], 0);
  }

  lemma OneMovieRaises(outcomes: seq<bool>, config: LibraryConfig)
    requires !config.useCollections
    ensures Scan(Disk(FreshStore(), outcomes, None), -1, "m", OneMovie(), config).disk.raised
            == if Fails(outcomes, 0) then Some(ContainerNotFound) else None
  {
    var disk := Disk(FreshStore(), outcomes, None);
    FreshStoreConsistent();
    FreshSearch(outcomes);
    hide Consistent, Scan, ScanBatches, OneMovie, NextId, Containers, UnderFailed, UnderAny, FreshStore, LostFolder,
      Remembers, Execute, RunOk, CreatesMovies;
    NothingRemembered(disk.store);
    ScanRaisesExactly(disk, -1, "m", OneMovie(), config);
    var no, nr := NextId(disk.store, ObjectKind), NextId(disk.store, ResourceKind);
    SearchKeepsConsistent(disk, -1);
    OneMovieBatches(config, no, no + 1, nr);
    ScanBatchesOk("m", OneMovie(), config, no, no + 1, nr);
    var batches := ScanBatches("m", OneMovie(), config, no, no + 1, nr).batches;
    var written := Written(disk, -1, "m", OneMovie(), config);
    assert written[1..] == batches;
    UnderFailedNext(written, outcomes);
    RefusedAtOnce(batches, no, Disk(map[], outcomes, None), no + 1, nr);
    NothingUnderFailed(batches, LaterOutcomes(outcomes));
  }

  lemma FreshSearch(outcomes: seq<bool>)
    ensures var disk := Disk(FreshStore(), outcomes, None);
            && CreatesMovies(disk, -1)
            && !LostFolder(disk.store, -1)
            && Containers(MoviesBatch(NextId(disk.store, ObjectKind)).items) == {NextId(disk.store, ObjectKind)}
            && MoviesFolderOf(disk, -1, NextId(disk.store, ObjectKind)).moviesFolder == NextId(disk.store, ObjectKind)
            && MoviesFolderOf(disk, -1, NextId(disk.store, ObjectKind)).nextObject == NextId(disk.store, ObjectKind) + 1
  {
    FreshStoreConsistent();
    hide NextId;
    ConsistentParts(FreshStore());
    CountersAbove(FreshStore());
    MoviesBatchOk(FreshStore(), NextId(FreshStore(), ObjectKind), NextId(FreshStore(), ResourceKind));
  }

  // ----- Sessions -----

  // Any state a session can reach, whatever writes have failed in it.
  ghost predicate Reached(s: Session) {
    && s.disk.raised.None? && Consistent(s.disk.store)
    && forall scanner :: scanner in s.memory ==> MemoryOk(s.disk.store, s.memory[scanner])
  }

  ghost predicate CallRaises(call: Call, s: Session) {
    var remembered := MemoryOf(s, call.scanner);
    Raises(s.disk, remembered, Written(s.disk, remembered, call.path, call.entries, call.config))
  }

  ghost predicate RaisesAsSaid(call: Call, s: Session) {
    var r := Scan(s.disk, MemoryOf(s, call.scanner), call.path, call.entries, call.config);
    && (r.disk.raised.Some? <==> CallRaises(call, s))
    && (r.disk.raised.Some? ==> r.disk.raised.value == ContainerNotFound)
  }

  lemma CallRaisesExactly(call: Call, s: Session)
    requires Reached(s)
    ensures RaisesAsSaid(call, s) && Reached(RunCall(call, s))
  {
    hide Consistent, Scan, Written, Raises, LostFolder, Remembers;
    var remembered := MemoryOf(s, call.scanner);
    NothingRemembered(s.disk.store);
    ScanRaisesExactly(s.disk, remembered, call.path, call.entries, call.config);
    ScanKeepsConsistent(s.disk, remembered, call.path, call.entries, call.config);
  }

  // In a session of any scanners, with any failed writes, every call raises
  // exactly when a batch of it goes under a container of it whose write
  // failed, or it writes anything below a movies folder that was lost before.
  lemma {:induction false} SessionRaisesExactly(calls: seq<Call>, s: Session)
    requires Reached(s)
    ensures forall n :: 0 <= n < |calls| ==> RaisesAsSaid(calls[n], RunCalls(calls[..n], s))
    ensures Reached(RunCalls(calls, s))
    decreases |calls|
  {
    hide Reached, RaisesAsSaid, RunCall, RunCalls;
    if calls == [] {
      NoCalls(s);
    } else {
      var m := |calls| - 1;
      var front := calls[..m];
      SessionRaisesExactly(front, s);
      CallRaisesExactly(calls[m], RunCalls(front, s));
      RunCallsNext(front, calls[m], s);
      assert calls == front + [calls[m]];
      forall n | 0 <= n < |calls| ensures RaisesAsSaid(calls[n], RunCalls(calls[..n], s)) {
        if n < m {
          assert calls[..n] == front[..n] && calls[n] == front[n];
        }
      }
    }
  }

  // A new database is such a state.
  lemma FreshReached(outcomes: seq<bool>)
    ensures Reached(Session(Disk(FreshStore(), outcomes, None), map[], [], []))
  {
    hide Consistent;
    FreshStoreConsistent();
  }
}
