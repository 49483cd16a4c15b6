// Whole runs of put_items calls: what every run keeps, and what a run without
// a failed write achieves.
module StoreRuns {
  import opened Keys
  import opened Records
  import opened KeyValue
  import opened StoreModel
  import opened ScanWalk
  import opened StoreInvariant

  ghost function Containers(items: seq<MediaObject>): set<int> {
    set i | 0 <= i < |items| && items[i].data.MediaContainer? :: items[i].id
  }

  // Batches that number their records from the counters on, each under a
  // known container: one known from the start, or one added by the run.
  ghost predicate RunOk(batches: seq<Batch>, known: set<int>, nextObject: int, nextResource: int)
    decreases |batches|
  {
    batches == [] ||
    (&& BatchOk(batches[0], nextObject, nextResource)
     && batches[0].parent in known && batches[0].parent > 0
     && RunOk(batches[1..], known + Containers(batches[0].items),
              nextObject + |batches[0].items|, nextResource + |batches[0].resources|))
  }

  lemma ContainersAppend(a: seq<MediaObject>, b: seq<MediaObject>)
    ensures Containers(a + b) == Containers(a) + Containers(b)
  {
    forall id | id in Containers(a) + Containers(b) ensures id in Containers(a + b) {
      if id in Containers(a) {
        var i :| 0 <= i < |a| && a[i].data.MediaContainer? && a[i].id == id;
        assert (a + b)[i] == a[i];
      } else {
        var i :| 0 <= i < |b| && b[i].data.MediaContainer? && b[i].id == id;
        assert (a + b)[|a| + i] == b[i];
      }
    }
  }

  ghost predicate FirstOk(batch: Batch, known: set<int>, nextObject: int, nextResource: int) {
    BatchOk(batch, nextObject, nextResource) && batch.parent in known && batch.parent > 0
  }

  lemma RunOkCons(batches: seq<Batch>, known: set<int>, nextObject: int, nextResource: int)
    requires batches != []
    ensures RunOk(batches, known, nextObject, nextResource) <==>
            && FirstOk(batches[0], known, nextObject, nextResource)
            && RunOk(batches[1..], known + Containers(batches[0].items),
                     nextObject + |batches[0].items|, nextResource + |batches[0].resources|)
  {
    hide BatchOk, Containers;
  }

  lemma ItemsCons(batches: seq<Batch>)
    requires batches != []
    ensures Items(batches) == batches[0].items + Items(batches[1..])
    ensures Resources(batches) == batches[0].resources + Resources(batches[1..])
  {
  }

  lemma {:induction false} RunOkAppend(a: seq<Batch>, b: seq<Batch>, known: set<int>, nextObject: int,
                                       nextResource: int)
    requires RunOk(a, known, nextObject, nextResource)
    requires RunOk(b, known + Containers(Items(a)), nextObject + |Items(a)|, nextResource + |Resources(a)|)
    ensures RunOk(a + b, known, nextObject, nextResource)
    decreases |a|
  {
    hide BatchOk, Containers, RunOk, Items, Resources, FirstOk;
    if a == [] {
      assert a + b == b;
      NoContainers();
      assert known + Containers(Items(a)) == known;
    } else {
      var rest := a[1..];
      assert (a + b)[0] == a[0] && (a + b)[1..] == rest + b;
      RunOkCons(a, known, nextObject, nextResource);
      RunOkCons(a + b, known, nextObject, nextResource);
      ItemsCons(a);
      ContainersAppend(a[0].items, Items(rest));
      assert known + Containers(Items(a)) == (known + Containers(a[0].items)) + Containers(Items(rest));
      RunOkAppend(rest, b, known + Containers(a[0].items),
                  nextObject + |a[0].items|, nextResource + |a[0].resources|);
    }
  }

  lemma NoContainers()
    ensures Containers(Items([])) == {} && Items([]) == [] && Resources([]) == []
  {
  }

  // ----- Any run, with or without failed writes -----

  // One put_items call: committed, failed or refused, the invariant holds after it.
  lemma CommitKeepsConsistent(batch: Batch, disk: Disk, nextObject: int, nextResource: int)
    requires disk.raised.None? && Consistent(disk.store) && Above(disk.store, nextObject, nextResource)
    requires BatchOk(batch, nextObject, nextResource) && RootBatchOk(batch, disk.store)
    ensures Consistent(Commit(batch, disk).store)
    ensures Above(Commit(batch, disk).store, nextObject + |batch.items|, nextResource + |batch.resources|)
  {
    hide Consistent, UpdateAll, Appended;
    if ReadContainer(disk.store, batch.parent).Ok? {
      OkIsFresh(batch, disk.store, nextObject, nextResource);
      CommitAppends(batch, disk);
      var after := Commit(batch, disk).store;
      if NextOutcome(disk.outcomes) {
        assert Step(batch, disk.store, after, nextObject, nextResource);
        AppendKeepsConsistent(batch, disk.store, after, nextObject, nextResource);
      }
    }
  }

  lemma {:induction false} RunKeepsConsistent(batches: seq<Batch>, known: set<int>, disk: Disk,
                                              nextObject: int, nextResource: int)
    requires Consistent(disk.store) && Above(disk.store, nextObject, nextResource)
    requires RunOk(batches, known, nextObject, nextResource)
    ensures Consistent(Execute(batches, disk).store)
    ensures Above(Execute(batches, disk).store, nextObject + |Items(batches)|, nextResource + |Resources(batches)|)
    decreases |batches|
  {
    hide Consistent, Commit, BatchOk, Containers;
    if batches != [] && disk.raised.None? {
      CommitKeepsConsistent(batches[0], disk, nextObject, nextResource);
      var next := Commit(batches[0], disk);
      RunKeepsConsistent(batches[1..], known + Containers(batches[0].items), next,
                         nextObject + |batches[0].items|, nextResource + |batches[0].resources|);
    }
  }

  lemma {:induction false} RunOkPrefix(batches: seq<Batch>, n: nat, known: set<int>, nextObject: int, nextResource: int)
    requires n <= |batches| && RunOk(batches, known, nextObject, nextResource)
    ensures RunOk(batches[..n], known, nextObject, nextResource)
    decreases n
  {
    hide BatchOk, Containers;
    if n > 0 {
      assert batches[..n][0] == batches[0] && batches[..n][1..] == batches[1..][..n - 1];
      RunOkPrefix(batches[1..], n - 1, known + Containers(batches[0].items),
                  nextObject + |batches[0].items|, nextResource + |batches[0].resources|);
    }
  }

  // The invariant holds wherever a run stops, whatever writes failed before.
  lemma EveryPrefixConsistent(batches: seq<Batch>, known: set<int>, disk: Disk, nextObject: int, nextResource: int)
    requires Consistent(disk.store) && Above(disk.store, nextObject, nextResource)
    requires RunOk(batches, known, nextObject, nextResource)
    ensures forall n :: 0 <= n <= |batches| ==> Consistent(Execute(batches[..n], disk).store)
  {
    hide Consistent, Above, RunOk, Execute;
    forall n | 0 <= n <= |batches| ensures Consistent(Execute(batches[..n], disk).store) {
      RunOkPrefix(batches, n, known, nextObject, nextResource);
      RunKeepsConsistent(batches[..n], known, disk, nextObject, nextResource);
    }
  }

  // ----- A run without failed writes -----

  ghost predicate NoFailures(outcomes: seq<bool>) {
    forall i :: 0 <= i < |outcomes| ==> outcomes[i]
  }

  // The known parents are containers of the store.
  ghost predicate AllStored(known: set<int>, store: Store) {
    forall id :: id in known ==> HasObject(store, id) && Obj(store, id).data.MediaContainer?
  }

  // The same object, up to children appended to a container.
  ghost predicate SameButChildren(before: MediaObject, after: MediaObject) {
    if before.data.MediaContainer? then
      && after.data.MediaContainer? && after == before.(data := after.data)
      && before.data.objects <= after.data.objects
    else after == before
  }

  // Nothing stored is lost or rewritten but for appended children.
  ghost predicate Grown(before: Store, after: Store) {
    && (forall id :: HasObject(before, id) ==> HasObject(after, id) && SameButChildren(Obj(before, id), Obj(after, id)))
    && (forall r :: ResourceKey(r) in before ==> ResourceKey(r) in after && after[ResourceKey(r)] == before[ResourceKey(r)])
  }

  lemma GrownTransitive(a: Store, b: Store, c: Store)
    requires Grown(a, b) && Grown(b, c)
    ensures Grown(a, c)
  {
    forall id | HasObject(a, id) ensures HasObject(c, id) && SameButChildren(Obj(a, id), Obj(c, id)) {
      assert HasObject(b, id);
    }
  }

  // The records of a batch are stored, and nothing else is new.
  ghost predicate Holds(items: seq<MediaObject>, resources: seq<StoredResource>, before: Store, after: Store,
                        nextObject: int, nextResource: int)
  {
    && (forall id :: nextObject <= id < nextObject + |items| ==>
          HasObject(after, id) && SameButChildren(items[id - nextObject], Obj(after, id)))
    && (forall id :: nextResource <= id < nextResource + |resources| ==>
          ResourceKey(id) in after
          && after[ResourceKey(id)] == ResourceRecord(resources[id - nextResource].resource))
    && (forall id :: ObjectKey(id) in after ==> ObjectKey(id) in before || nextObject <= id < nextObject + |items|)
    && (forall id :: ResourceKey(id) in after ==>
          ResourceKey(id) in before || nextResource <= id < nextResource + |resources|)
  }

  lemma StepGrows(batch: Batch, before: Store, after: Store, nextObject: int, nextResource: int)
    requires Step(batch, before, after, nextObject, nextResource)
    ensures Grown(before, after)
  {
    hide Consistent, Partition, Introduces, ObjectKeys;
    forall id | HasObject(before, id) ensures HasObject(after, id) && SameButChildren(Obj(before, id), Obj(after, id)) {
      ObjectStays(batch, before, after, nextObject, nextResource, id);
      ObjectAfter(batch, before, after, nextObject, nextResource, id);
    }
  }

  lemma StepHolds(batch: Batch, before: Store, after: Store, nextObject: int, nextResource: int)
    requires Step(batch, before, after, nextObject, nextResource)
    ensures Holds(batch.items, batch.resources, before, after, nextObject, nextResource)
  {
    hide Consistent, Partition, ObjectKeys, ReadContainer;
    forall id | nextObject <= id < nextObject + |batch.items|
      ensures HasObject(after, id) && SameButChildren(batch.items[id - nextObject], Obj(after, id))
    {
      assert batch.items[id - nextObject].id == id;
      assert after[ObjectKey(batch.items[id - nextObject].id)] == ObjectRecord(batch.items[id - nextObject]);
      ObjectStays(batch, before, after, nextObject, nextResource, id);
    }
    forall id | nextResource <= id < nextResource + |batch.resources|
      ensures ResourceKey(id) in after
      ensures after[ResourceKey(id)] == ResourceRecord(batch.resources[id - nextResource].resource)
    {
      assert batch.resources[id - nextResource].key == id;
      assert ResourceKey(id) == ResourceKey(batch.resources[id - nextResource].key);
      assert Introduces(batch, ResourceKey(id));
    }
    forall k | k in after && k !in before ensures Introduces(batch, k) {}
  }

  ghost predicate Fails(outcomes: seq<bool>, i: int) {
    0 <= i < |outcomes| && !outcomes[i]
  }

  // A put_items call under a stored container: committed or failed.
  lemma CommitEither(batch: Batch, disk: Disk, nextObject: int, nextResource: int)
    requires disk.raised.None? && Consistent(disk.store) && Above(disk.store, nextObject, nextResource)
    requires BatchOk(batch, nextObject, nextResource) && RootBatchOk(batch, disk.store)
    requires AllStored({batch.parent}, disk.store)
    ensures var after := Commit(batch, disk);
            && after.raised.None? && after.outcomes == LaterOutcomes(disk.outcomes)
            && (if Fails(disk.outcomes, 0) then after.store == disk.store
                else Step(batch, disk.store, after.store, nextObject, nextResource))
  {
    hide Consistent, UpdateAll, Appended;
    assert HasObject(disk.store, batch.parent);
    OkIsFresh(batch, disk.store, nextObject, nextResource);
    CommitAppends(batch, disk);
  }

  // The same when the write succeeds.
  lemma CommitSucceeds(batch: Batch, disk: Disk, nextObject: int, nextResource: int)
    requires disk.raised.None? && Consistent(disk.store) && Above(disk.store, nextObject, nextResource)
    requires BatchOk(batch, nextObject, nextResource) && RootBatchOk(batch, disk.store)
    requires NoFailures(disk.outcomes) && AllStored({batch.parent}, disk.store)
    ensures var after := Commit(batch, disk);
            && after.raised.None? && NoFailures(after.outcomes)
            && Step(batch, disk.store, after.store, nextObject, nextResource)
  {
    hide Commit, Step, Consistent, Above, BatchOk, RootBatchOk, AllStored;
    CommitEither(batch, disk, nextObject, nextResource);
  }

  lemma NewlyKnown(batch: Batch, known: set<int>, before: Store, after: Store, nextObject: int, nextResource: int)
    requires BatchOk(batch, nextObject, nextResource) && AllStored(known, before) && Grown(before, after)
    requires Holds(batch.items, batch.resources, before, after, nextObject, nextResource)
    ensures AllStored(known + Containers(batch.items), after)
  {
    hide Partition, ParentsMatch;
    forall id | id in known + Containers(batch.items)
      ensures HasObject(after, id) && Obj(after, id).data.MediaContainer?
    {
      if id in known {
        assert HasObject(before, id);
      } else {
        var i :| 0 <= i < |batch.items| && batch.items[i].data.MediaContainer? && batch.items[i].id == id;
        assert id - nextObject == i;
      }
    }
  }

  lemma HoldsAppend(a: seq<MediaObject>, ra: seq<StoredResource>, b: seq<MediaObject>, rb: seq<StoredResource>,
                    before: Store, middle: Store, after: Store, nextObject: int, nextResource: int)
    requires Holds(a, ra, before, middle, nextObject, nextResource) && Grown(middle, after)
    requires Holds(b, rb, middle, after, nextObject + |a|, nextResource + |ra|)
    ensures Holds(a + b, ra + rb, before, after, nextObject, nextResource)
  {
    forall id | nextObject <= id < nextObject + |a + b|
      ensures HasObject(after, id) && SameButChildren((a + b)[id - nextObject], Obj(after, id))
    {
      if id < nextObject + |a| {
        assert HasObject(middle, id);
      } else {
        assert (a + b)[id - nextObject] == b[id - (nextObject + |a|)];
      }
    }
    forall id | nextResource <= id < nextResource + |ra + rb|
      ensures ResourceKey(id) in after
      ensures after[ResourceKey(id)] == ResourceRecord((ra + rb)[id - nextResource].resource)
    {
      if id >= nextResource + |ra| {
        assert (ra + rb)[id - nextResource] == rb[id - (nextResource + |ra|)];
      }
    }
  }

  // No exception, and everything the run built is stored.
  lemma {:induction false} RunSucceeds(batches: seq<Batch>, known: set<int>, disk: Disk,
                                       nextObject: int, nextResource: int)
    requires disk.raised.None? && Consistent(disk.store) && Above(disk.store, nextObject, nextResource)
    requires RunOk(batches, known, nextObject, nextResource)
    requires NoFailures(disk.outcomes) && AllStored(known, disk.store)
    ensures var after := Execute(batches, disk);
            && after.raised.None? && NoFailures(after.outcomes)
            && Grown(disk.store, after.store)
            && Holds(Items(batches), Resources(batches), disk.store, after.store, nextObject, nextResource)
    decreases |batches|
  {
    hide Consistent, Above, Commit, BatchOk, Containers, Grown, Holds, AllStored, NoFailures, Step;
    if batches == [] {
      NothingHappens(disk.store, nextObject, nextResource);
    } else {
      var batch := batches[0];
      OneStored(known, batch.parent, disk.store);
      CommitSucceeds(batch, disk, nextObject, nextResource);
      var next := Commit(batch, disk);
      StepHolds(batch, disk.store, next.store, nextObject, nextResource);
      StepGrows(batch, disk.store, next.store, nextObject, nextResource);
      AppendKeepsConsistent(batch, disk.store, next.store, nextObject, nextResource);
      NewlyKnown(batch, known, disk.store, next.store, nextObject, nextResource);
      var no, nr := nextObject + |batch.items|, nextResource + |batch.resources|;
      RunSucceeds(batches[1..], known + Containers(batch.items), next, no, nr);
      var after := Execute(batches[1..], next).store;
      HoldsAppend(batch.items, batch.resources, Items(batches[1..]), Resources(batches[1..]),
                  disk.store, next.store, after, nextObject, nextResource);
      GrownTransitive(disk.store, next.store, after);
    }
  }

  lemma OneStored(known: set<int>, id: int, store: Store)
    requires id in known && AllStored(known, store)
    ensures AllStored({id}, store)
  {
  }

  lemma NothingHappens(store: Store, nextObject: int, nextResource: int)
    ensures Grown(store, store) && Holds([], [], store, store, nextObject, nextResource)
  {
  }
}
