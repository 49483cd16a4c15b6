// The library as a tree: listing it recursively from the root ends, and meets
// every stored object exactly once.
module LibraryTree {
  import opened Keys
  import opened Records
  import opened StoreModel
  import opened StoreService
  import opened StoreInvariant

  ghost predicate Bounded(store: Store, bound: int) {
    forall id :: HasObject(store, id) ==> 0 <= id < bound
  }

  lemma ConsistentBounded(store: Store)
    requires Consistent(store)
    ensures Bounded(store, NextId(store, ObjectKind))
  {
    forall id | HasObject(store, id) ensures 0 <= id < NextId(store, ObjectKind) {
      assert HasKind(ObjectKey(id), ObjectKind);
    }
  }

  // Listed children of an object, or the last few of them.
  ghost predicate ChildrenOf(store: Store, keys: seq<LibraryKey>, parent: int) {
    forall k :: k in keys ==>
      k.ObjectKey? && HasObject(store, k.id) && k.id != ROOT_ID && Obj(store, k.id).parentId == parent && parent < k.id
  }

  lemma ChildrenAreAbove(store: Store, id: int)
    requires Consistent(store) && HasObject(store, id)
    ensures ChildrenOf(store, ChildKeys(Obj(store, id)), id)
  {
    hide ChildrenAscending, RefsResolve, RefsUnique, ResourcesUsed, MoviesOnly, ContainersUndated, Typed;
  }

  // An object and everything below it, as a client lists it.
  ghost function Listing(store: Store, id: int, bound: int): seq<int>
    requires Consistent(store) && Bounded(store, bound) && HasObject(store, id)
    decreases bound - id, 1, 0
  {
    ChildrenAreAbove(store, id);
    [id] + ListingAll(store, ChildKeys(Obj(store, id)), id, bound)
  }

  ghost function ListingAll(store: Store, keys: seq<LibraryKey>, parent: int, bound: int): seq<int>
    requires Consistent(store) && Bounded(store, bound) && HasObject(store, parent) && ChildrenOf(store, keys, parent)
    decreases bound - parent, 0, |keys|
  {
    if keys == [] then []
    else
      assert keys[0] in keys;
      Listing(store, keys[0].id, bound) + ListingAll(store, keys[1..], parent, bound)
  }

  // The chain of parents of x contains a.
  ghost predicate IsAncestor(store: Store, a: int, x: int)
    requires Consistent(store) && HasObject(store, x)
    decreases x
  {
    a == x || (x != ROOT_ID && IsNatural(store, x) && IsAncestor(store, a, Obj(store, x).parentId))
  }

  lemma ParentOf(store: Store, x: int)
    requires Consistent(store) && HasObject(store, x) && x != ROOT_ID
    ensures var p := Obj(store, x).parentId;
            0 <= p < x && HasObject(store, p) && ObjectKey(x) in ChildKeys(Obj(store, p))
  {
    hide ChildrenAscending, RefsResolve, RefsUnique, ResourcesUsed, MoviesOnly, ContainersUndated;
    assert ObjectKey(Obj(store, x).parentId) in store;
  }

  // Ids are natural and parents are smaller; what IsAncestor needs to be well-defined.
  ghost predicate IsNatural(store: Store, x: int)
    requires Consistent(store) && HasObject(store, x) && x != ROOT_ID
    ensures IsNatural(store, x) && 0 <= Obj(store, x).parentId < x && HasObject(store, Obj(store, x).parentId)
  {
    ParentOf(store, x);
    true
  }

  lemma {:induction false} RootIsAncestor(store: Store, x: int)
    requires Consistent(store) && HasObject(store, x)
    ensures IsAncestor(store, ROOT_ID, x)
    decreases x
  {
    hide Consistent;
    if x != ROOT_ID {
      ParentOf(store, x);
      RootIsAncestor(store, Obj(store, x).parentId);
    }
  }

  // The child of a that leads to x.
  ghost function Branch(store: Store, a: int, x: int): int
    requires Consistent(store) && HasObject(store, x) && IsAncestor(store, a, x) && a != x
    decreases x
  {
    if IsNatural(store, x) && Obj(store, x).parentId == a then x else Branch(store, a, Obj(store, x).parentId)
  }

  lemma {:induction false} AncestorIsSmaller(store: Store, a: int, x: int)
    requires Consistent(store) && HasObject(store, x) && IsAncestor(store, a, x)
    ensures a <= x && HasObject(store, a)
    decreases x
  {
    hide Consistent;
    if a != x {
      ParentOf(store, x);
      AncestorIsSmaller(store, a, Obj(store, x).parentId);
    }
  }

  lemma {:induction false} BranchIsListed(store: Store, a: int, x: int)
    requires Consistent(store) && HasObject(store, x) && IsAncestor(store, a, x) && a != x
    ensures HasObject(store, a) && ObjectKey(Branch(store, a, x)) in ChildKeys(Obj(store, a))
    decreases x
  {
    hide Consistent;
    ParentOf(store, x);
    if Obj(store, x).parentId != a {
      BranchIsListed(store, a, Obj(store, x).parentId);
    }
  }

  // A child of a is above x exactly when it is the branch of a to x.
  lemma {:induction false} ChildIsAncestor(store: Store, a: int, child: int, x: int)
    requires Consistent(store) && HasObject(store, x)
    requires HasObject(store, child) && child != ROOT_ID && Obj(store, child).parentId == a
    ensures IsAncestor(store, child, x) <==> IsAncestor(store, a, x) && a != x && Branch(store, a, x) == child
    decreases x
  {
    hide Consistent;
    ParentOf(store, child);
    if x != ROOT_ID {
      ParentOf(store, x);
      var p := Obj(store, x).parentId;
      ChildIsAncestor(store, a, child, p);
      if IsAncestor(store, a, p) {
        AncestorIsSmaller(store, a, p);
      }
      if IsAncestor(store, child, p) {
        AncestorIsSmaller(store, child, p);
      }
    }
  }

  // How often x occurs in a listing: once below those above it, else never.
  lemma {:induction false} ListingCounts(store: Store, id: int, bound: int, x: int)
    requires Consistent(store) && Bounded(store, bound) && HasObject(store, id) && HasObject(store, x)
    ensures multiset(Listing(store, id, bound))[x] == if IsAncestor(store, id, x) then 1 else 0
    decreases bound - id, 1, 0
  {
    hide Consistent;
    var keys := ChildKeys(Obj(store, id));
    ChildrenAreAbove(store, id);
    ListingAllCounts(store, keys, id, bound, x);
    if IsAncestor(store, id, x) && id != x {
      BranchIsListed(store, id, x);
      DistinctChildren(store, id);
      CountOne(keys, ObjectKey(Branch(store, id, x)));
    }
  }

  lemma DistinctChildren(store: Store, id: int)
    requires Consistent(store) && HasObject(store, id)
    ensures NoRepeats(ChildKeys(Obj(store, id)))
  {
  }

  lemma {:induction false} CountOne(keys: seq<LibraryKey>, k: LibraryKey)
    requires NoRepeats(keys) && k in keys
    ensures multiset(keys)[k] == 1
  {
    var n := |keys| - 1;
    assert keys == keys[..n] + [keys[n]];
    if k in keys[..n] {
      CountOne(keys[..n], k);
    }
  }

  lemma {:induction false} ListingAllCounts(store: Store, keys: seq<LibraryKey>, parent: int, bound: int, x: int)
    requires Consistent(store) && Bounded(store, bound) && HasObject(store, parent) && ChildrenOf(store, keys, parent)
    requires HasObject(store, x)
    ensures multiset(ListingAll(store, keys, parent, bound))[x]
            == if IsAncestor(store, parent, x) && parent != x then multiset(keys)[ObjectKey(Branch(store, parent, x))] else 0
    decreases bound - parent, 0, |keys|
  {
    hide Consistent;
    if keys != [] {
      var key, rest := keys[0], keys[1..];
      assert key in keys;
      assert keys == [key] + rest;
      ListingCounts(store, key.id, bound, x);
      ListingAllCounts(store, rest, parent, bound, x);
      ChildIsAncestor(store, parent, key.id, x);
    }
  }

  lemma {:induction false} ListingStored(store: Store, id: int, bound: int)
    requires Consistent(store) && Bounded(store, bound) && HasObject(store, id)
    ensures forall x :: x in Listing(store, id, bound) ==> HasObject(store, x)
    decreases bound - id, 1, 0
  {
    hide Consistent;
    ChildrenAreAbove(store, id);
    ListingAllStored(store, ChildKeys(Obj(store, id)), id, bound);
  }

  lemma {:induction false} ListingAllStored(store: Store, keys: seq<LibraryKey>, parent: int, bound: int)
    requires Consistent(store) && Bounded(store, bound) && HasObject(store, parent) && ChildrenOf(store, keys, parent)
    ensures forall x :: x in ListingAll(store, keys, parent, bound) ==> HasObject(store, x)
    decreases bound - parent, 0, |keys|
  {
    hide Consistent;
    if keys != [] {
      assert keys[0] in keys;
      ListingStored(store, keys[0].id, bound);
      ListingAllStored(store, keys[1..], parent, bound);
    }
  }

  // Listing everything from the root meets every stored object exactly once,
  // and nothing else.
  lemma ListingVisitsAllOnce(store: Store)
    requires Consistent(store)
    ensures HasObject(store, ROOT_ID) && Bounded(store, NextId(store, ObjectKind))
    ensures var listing := Listing(store, ROOT_ID, NextId(store, ObjectKind));
            forall x :: multiset(listing)[x] == if HasObject(store, x) then 1 else 0
  {
    var bound := NextId(store, ObjectKind);
    ConsistentBounded(store);
    hide Consistent, NextId, Listing;
    assert HasObject(store, ROOT_ID) by { DistinctChildrenRoot(store); }
    var listing := Listing(store, ROOT_ID, bound);
    ListingStored(store, ROOT_ID, bound);
    forall x ensures multiset(listing)[x] == if HasObject(store, x) then 1 else 0 {
      if HasObject(store, x) {
        RootIsAncestor(store, x);
        ListingCounts(store, ROOT_ID, bound, x);
      } else {
        assert x !in listing;
      }
    }
  }

  lemma DistinctChildrenRoot(store: Store)
    requires Consistent(store)
    ensures HasObject(store, ROOT_ID)
  {
  }
}
