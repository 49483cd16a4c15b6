// Walking a directory tree: recursively, and with an explicit stack. Both are
// given the plan for one directory as a parameter, and write the same batches.
module ScanWalk {
  import opened Text
  import opened Records
  import opened StoreModel
  import opened Folders

  // Items and resources of a list of batches, in the order they are written.
  function Items(batches: seq<Batch>): seq<MediaObject> {
    if batches == [] then [] else batches[0].items + Items(batches[1..])
  }

  function Resources(batches: seq<Batch>): seq<StoredResource> {
    if batches == [] then [] else batches[0].resources + Resources(batches[1..])
  }

  lemma {:induction false} ItemsAppend(a: seq<Batch>, b: seq<Batch>)
    ensures Items(a + b) == Items(a) + Items(b)
    ensures Resources(a + b) == Resources(a) + Resources(b)
  {
    if a == [] {
      assert a + b == b;
    } else {
      assert (a + b)[0] == a[0] && (a + b)[1..] == a[1..] + b;
      ItemsAppend(a[1..], b);
    }
  }

  // The batches written so far and the next free ids.
  datatype Progress = Progress(batches: seq<Batch>, nextObject: int, nextResource: int) {
    function Then(more: seq<Batch>): Progress {
      Progress(batches + more, nextObject + |Items(more)|, nextResource + |Resources(more)|)
    }
  }

  // The batches of one directory, and the parent its subdirectories get.
  datatype FolderPlan = FolderPlan(batches: seq<Batch>, childParent: int)

  // Path, entries, whether collections may be made, parent, and the next
  // object and resource ids.
  type FolderPlanner = (string, seq<FsEntry>, bool, int, int, int) -> FolderPlan

  // ----- Recursively -----

  // A directory, then everything below it.
  function WalkTree(plan: FolderPlanner, path: string, entries: seq<FsEntry>, collections: bool, below: bool,
                    parent: int, done: Progress): Progress
    decreases entries, 1
  {
    var own := plan(path, entries, collections, parent, done.nextObject, done.nextResource);
    WalkSubfolders(plan, path, entries, below, own.childParent, done.Then(own.batches))
  }

  // The subdirectories of a directory, last listed first.
  function WalkSubfolders(plan: FolderPlanner, path: string, entries: seq<FsEntry>, below: bool,
                          parent: int, done: Progress): Progress
    decreases entries, 0
  {
    if entries == [] then done
    else
      var front, last := entries[..|entries| - 1], entries[|entries| - 1];
      WalkSubfolders(plan, path, front, below, parent,
        if last.Directory? then WalkTree(plan, Join(path, last.name), last.entries, below, below, parent, done)
        else done)
  }

  // ----- With a stack -----

  datatype Pending = Pending(path: string, entries: seq<FsEntry>, parent: int)

  function Size(entry: FsEntry): (n: nat)
    ensures n > 0
    decreases entry, 1
  {
    if entry.Directory? then 1 + SizeAll(entry.entries) else 1
  }

  function SizeAll(entries: seq<FsEntry>): nat
    decreases entries, 0
  {
    if entries == [] then 0
    else SizeAll(entries[..|entries| - 1]) + Size(entries[|entries| - 1])
  }

  function StackSize(stack: seq<Pending>): nat {
    if stack == [] then 0
    else StackSize(stack[..|stack| - 1]) + 1 + SizeAll(stack[|stack| - 1].entries)
  }

  function Subdirectories(path: string, entries: seq<FsEntry>, parent: int): seq<Pending> {
    if entries == [] then []
    else
      var last := entries[|entries| - 1];
      Subdirectories(path, entries[..|entries| - 1], parent)
      + if last.Directory? then [Pending(Join(path, last.name), last.entries, parent)] else []
  }

  // The recursive walks of all directories on a stack, top first.
  function WalkStack(plan: FolderPlanner, stack: seq<Pending>, collections: bool, below: bool,
                     done: Progress): Progress
  {
    if stack == [] then done
    else
      var top := stack[|stack| - 1];
      WalkStack(plan, stack[..|stack| - 1], below, below,
        WalkTree(plan, top.path, top.entries, collections, below, top.parent, done))
  }

  // Pushing all subdirectories in listing order walks them last listed first.
  lemma {:induction false} PushWalksSubfolders(
    plan: FolderPlanner, stack: seq<Pending>, path: string, entries: seq<FsEntry>, below: bool,
    parent: int, done: Progress)
    ensures WalkStack(plan, stack + Subdirectories(path, entries, parent), below, below, done)
            == WalkStack(plan, stack, below, below, WalkSubfolders(plan, path, entries, below, parent, done))
  {
    if entries == [] {
      assert stack + Subdirectories(path, entries, parent) == stack;
    } else {
      var front, last := entries[..|entries| - 1], entries[|entries| - 1];
      var pushed := stack + Subdirectories(path, entries, parent);
      var rest := stack + Subdirectories(path, front, parent);
      if last.Directory? {
        assert pushed[..|pushed| - 1] == rest;
        PushWalksSubfolders(plan, stack, path, front, below, parent,
          WalkTree(plan, Join(path, last.name), last.entries, below, below, parent, done));
      } else {
        assert pushed == rest;
        PushWalksSubfolders(plan, stack, path, front, below, parent, done);
      }
    }
  }

  lemma {:induction false} PushSize(stack: seq<Pending>, path: string, entries: seq<FsEntry>, parent: int)
    ensures StackSize(stack + Subdirectories(path, entries, parent)) <= StackSize(stack) + SizeAll(entries)
  {
    if entries == [] {
      assert stack + Subdirectories(path, entries, parent) == stack;
    } else {
      var front, last := entries[..|entries| - 1], entries[|entries| - 1];
      PushSize(stack, path, front, parent);
      var pushed := stack + Subdirectories(path, entries, parent);
      var rest := stack + Subdirectories(path, front, parent);
      if last.Directory? {
        assert pushed[..|pushed| - 1] == rest;
      } else {
        assert pushed == rest;
      }
    }
  }

  // One turn of the stack loop: popping a directory, writing its batches and
  // pushing its subdirectories leaves what the recursive walk has left to do,
  // and makes the stack smaller.
  lemma StackStep(plan: FolderPlanner, stack: seq<Pending>, collections: bool, below: bool, done: Progress)
    requires stack != []
    ensures
      var top := stack[|stack| - 1];
      var own := plan(top.path, top.entries, collections, top.parent, done.nextObject, done.nextResource);
      var next := stack[..|stack| - 1] + Subdirectories(top.path, top.entries, own.childParent);
      && WalkStack(plan, stack, collections, below, done)
         == WalkStack(plan, next, below, below, done.Then(own.batches))
      && StackSize(next) < StackSize(stack)
  {
    var top := stack[|stack| - 1];
    var rest := stack[..|stack| - 1];
    var own := plan(top.path, top.entries, collections, top.parent, done.nextObject, done.nextResource);
    PushWalksSubfolders(plan, rest, top.path, top.entries, below, own.childParent, done.Then(own.batches));
    PushSize(rest, top.path, top.entries, own.childParent);
  }

  // The stack that scan_all starts with leads to the recursive walk.
  lemma StackIsTree(plan: FolderPlanner, path: string, entries: seq<FsEntry>, collections: bool, below: bool,
                    parent: int, done: Progress)
    ensures WalkStack(plan, [Pending(path, entries, parent)], collections, below, done)
            == WalkTree(plan, path, entries, collections, below, parent, done)
  {
    assert [Pending(path, entries, parent)][..0] == [];
  }

  // A walk only adds batches after those already written.
  lemma {:induction false} WalkTreeExtends(plan: FolderPlanner, path: string, entries: seq<FsEntry>, collections: bool,
                                           below: bool, parent: int, done: Progress)
    ensures done.batches <= WalkTree(plan, path, entries, collections, below, parent, done).batches
    decreases entries, 1
  {
    var own := plan(path, entries, collections, parent, done.nextObject, done.nextResource);
    WalkSubfoldersExtends(plan, path, entries, below, own.childParent, done.Then(own.batches));
  }

  lemma {:induction false} WalkSubfoldersExtends(plan: FolderPlanner, path: string, entries: seq<FsEntry>, below: bool,
                                                 parent: int, done: Progress)
    ensures done.batches <= WalkSubfolders(plan, path, entries, below, parent, done).batches
    decreases entries, 0
  {
    if entries != [] {
      var front, last := entries[..|entries| - 1], entries[|entries| - 1];
      if last.Directory? {
        var next := WalkTree(plan, Join(path, last.name), last.entries, below, below, parent, done);
        WalkTreeExtends(plan, Join(path, last.name), last.entries, below, below, parent, done);
        WalkSubfoldersExtends(plan, path, front, below, parent, next);
      } else {
        WalkSubfoldersExtends(plan, path, front, below, parent, done);
      }
    }
  }

  lemma {:induction false} WalkStackExtends(plan: FolderPlanner, stack: seq<Pending>, collections: bool, below: bool,
                                            done: Progress)
    ensures done.batches <= WalkStack(plan, stack, collections, below, done).batches
  {
    if stack != [] {
      var top := stack[|stack| - 1];
      WalkTreeExtends(plan, top.path, top.entries, collections, below, top.parent, done);
      WalkStackExtends(plan, stack[..|stack| - 1], below, below,
        WalkTree(plan, top.path, top.entries, collections, below, top.parent, done));
    }
  }
}
