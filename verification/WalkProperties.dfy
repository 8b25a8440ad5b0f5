/** What a workspace walk visits, for every listing function: coverage, and uniqueness on trees. */
module WalkProperties {
  import opened Basics
  import opened Workspace
  import opened Reach

  ghost predicate Lists(ws: Workspace, dir: string, entry: Entry) {
    ws.list(dir).Some? && entry in ws.list(dir).value && entry.path != ""
  }

  predicate Entered(ws: Workspace, entry: Entry) {
    entry.path != "" && entry.kind.Directory? && !ws.excluded(entry.path, true)
  }

  ghost predicate HasSubdirectory(ws: Workspace, dir: string, sub: string) {
    exists entry :: Lists(ws, dir, entry) && Entered(ws, entry) && entry.path == sub
  }

  ghost function Subdirectories(ws: Workspace): Edges {
    (dir, sub) => HasSubdirectory(ws, dir, sub)
  }

  predicate Yields(ws: Workspace, entry: Entry, item: PathItem) {
    entry.path != "" && Kept(ws, entry) && item == PathItem(entry.path, entry.size, entry.mtime)
  }

  ghost predicate HasFile(ws: Workspace, dir: string, item: PathItem) {
    exists entry :: Lists(ws, dir, entry) && Yields(ws, entry, item)
  }

  ghost predicate AllReachable(ws: Workspace, pending: seq<Entry>, stack: seq<string>) {
    && (forall dir :: dir in stack ==> Reachable(Subdirectories(ws), dir))
    && (forall entry :: entry in pending && Entered(ws, entry) ==> Reachable(Subdirectories(ws), entry.path))
  }

  ghost predicate Closed(ws: Workspace, dirs: set<string>) {
    forall dir, sub :: dir in dirs && HasSubdirectory(ws, dir, sub) ==> sub in dirs
  }

  ghost predicate Covers(ws: Workspace, pending: seq<Entry>, stack: seq<string>, dirs: set<string>,
                         items: seq<PathItem>)
  {
    && (forall dir :: dir in stack ==> dir in dirs)
    && (forall entry :: entry in pending && Entered(ws, entry) ==> entry.path in dirs)
    && (forall dir :: dir in dirs ==> ws.list(dir).Some? && Reachable(Subdirectories(ws), dir))
    && Closed(ws, dirs)
    && forall item :: item in items <==>
         (exists entry :: entry in pending && Yields(ws, entry, item))
         || (exists dir :: dir in dirs && HasFile(ws, dir, item))
  }

  lemma {:induction false} WalkCovers(ws: Workspace, pending: seq<Entry>, stack: seq<string>, left: nat)
    returns (dirs: set<string>)
    requires AllReachable(ws, pending, stack)
    requires !Walk(ws, pending, stack, left).cut && !Walk(ws, pending, stack, left).failed
    ensures Covers(ws, pending, stack, dirs, Walk(ws, pending, stack, left).items)
    decreases left + |stack|, |pending|
  {
    var items := Walk(ws, pending, stack, left).items;
    if pending == [] {
      if stack == [] {
        dirs := {};
      } else {
        var entries := ws.list(stack[|stack| - 1]).value;
        var below := stack[..|stack| - 1];
        ReachableAfterListing(ws, pending, stack);
        dirs := WalkCovers(ws, entries, below, left);
        CoverDirectory(ws, pending, stack, dirs, items);
        dirs := dirs + {stack[|stack| - 1]};
      }
    } else {
      var deeper := Deeper(ws, pending[0], stack);
      var rest := left - if pending[0].path == "" then 0 else 1;
      ReachableAfterEntry(ws, pending, stack);
      dirs := WalkCovers(ws, pending[1..], deeper, rest);
      CoverEntry(ws, pending, stack, dirs, Walk(ws, pending[1..], deeper, rest).items, items);
    }
  }

  /** The stack after reading one entry. */
  function Deeper(ws: Workspace, entry: Entry, stack: seq<string>): seq<string> {
    if Entered(ws, entry) then stack + [entry.path] else stack
  }

  lemma ReachableAfterListing(ws: Workspace, pending: seq<Entry>, stack: seq<string>)
    requires AllReachable(ws, pending, stack) && stack != [] && ws.list(stack[|stack| - 1]).Some?
    ensures AllReachable(ws, ws.list(stack[|stack| - 1]).value, stack[..|stack| - 1])
  {
    var top := stack[|stack| - 1];
    forall entry | entry in ws.list(top).value && Entered(ws, entry)
      ensures Reachable(Subdirectories(ws), entry.path)
    {
      assert Lists(ws, top, entry);
      StepReachable(Subdirectories(ws), top, entry.path);
    }
  }

  lemma ReachableAfterEntry(ws: Workspace, pending: seq<Entry>, stack: seq<string>)
    requires AllReachable(ws, pending, stack) && pending != []
    ensures AllReachable(ws, pending[1..], Deeper(ws, pending[0], stack))
  {
    assert pending[0] in pending;
  }

  lemma CoverDirectory(ws: Workspace, pending: seq<Entry>, stack: seq<string>, rest: set<string>, items: seq<PathItem>)
    requires pending == [] && stack != [] && ws.list(stack[|stack| - 1]).Some?
    requires Reachable(Subdirectories(ws), stack[|stack| - 1])
    requires Covers(ws, ws.list(stack[|stack| - 1]).value, stack[..|stack| - 1], rest, items)
    ensures Covers(ws, pending, stack, rest + {stack[|stack| - 1]}, items)
  {
    var top := stack[|stack| - 1];
    assert stack == stack[..|stack| - 1] + [top];
    forall item
      ensures item in items <==> exists dir :: dir in rest + {top} && HasFile(ws, dir, item)
    {
      if entry :| entry in ws.list(top).value && Yields(ws, entry, item) {
        assert Lists(ws, top, entry);
        assert HasFile(ws, top, item);
      }
    }
  }

  lemma CoverEntry(ws: Workspace, pending: seq<Entry>, stack: seq<string>, dirs: set<string>, before: seq<PathItem>,
                   after: seq<PathItem>)
    requires pending != [] && Covers(ws, pending[1..], Deeper(ws, pending[0], stack), dirs, before)
    requires after == if pending[0].path != "" && Kept(ws, pending[0])
                      then [PathItem(pending[0].path, pending[0].size, pending[0].mtime)] + before else before
    ensures Covers(ws, pending, stack, dirs, after)
  {
    var first, deeper := pending[0], Deeper(ws, pending[0], stack);
    assert pending == [first] + pending[1..];
    assert forall dir :: dir in stack ==> dir in deeper;
    assert Entered(ws, first) ==> first.path in deeper;
    forall item
      ensures item in after <==>
        (exists entry :: entry in pending && Yields(ws, entry, item))
        || (exists dir :: dir in dirs && HasFile(ws, dir, item))
    {
      assert item in after <==> item in before || Yields(ws, first, item);
    }
  }

  /**
   A walk that finishes lists exactly the reachable directories: an item is yielded if and only if
   it is a kept file of a directory reachable from the root through entered directories.
   */
  lemma CompleteWalkYieldsReachableFiles(ws: Workspace, item: PathItem)
    requires !WalkFromRoot(ws).cut && !WalkFromRoot(ws).failed
    ensures item in WalkFromRoot(ws).items
       <==> exists dir :: Reachable(Subdirectories(ws), dir) && HasFile(ws, dir, item)
  {
    RootReachable(Subdirectories(ws));
    var root := [""];
    assert AllReachable(ws, [], root);
    var dirs := WalkCovers(ws, [], root, MAX_VISITED_PATHS);
    CoverRoot(ws, root, dirs, WalkFromRoot(ws).items, item);
  }

  lemma CoverRoot(ws: Workspace, root: seq<string>, dirs: set<string>, items: seq<PathItem>, item: PathItem)
    requires root == [""] && Covers(ws, [], root, dirs, items)
    ensures item in items <==> exists dir :: Reachable(Subdirectories(ws), dir) && HasFile(ws, dir, item)
  {
    assert root[0] in root;
    if dir :| Reachable(Subdirectories(ws), dir) && HasFile(ws, dir, item) {
      ClosedSetCovers(Subdirectories(ws), dirs, dir);
      assert dir in dirs;
    }
  }

  /** No path is listed twice, neither in one directory nor in two. */
  ghost predicate TreeShaped(ws: Workspace) {
    && (forall dir :: ws.list(dir).Some? ==> DistinctEntries(ws.list(dir).value))
    && (forall d, e, x, y :: Lists(ws, d, x) && Lists(ws, e, y) && d != e ==> x.path != y.path)
  }

  ghost predicate DistinctEntries(entries: seq<Entry>) {
    forall i, j :: 0 <= i < j < |entries| && entries[i].path != "" ==> entries[i].path != entries[j].path
  }

  /**
   `done` are the directories listed so far and `seen` the paths read so far: every path read was
   listed in a finished directory, and what is still to be listed was read but not finished.
   */
  ghost predicate Progress(ws: Workspace, stack: seq<string>, done: set<string>, seen: set<string>) {
    && Distinct(stack)
    && (forall d :: d in stack ==> d !in done && (d == "" || d in seen))
    && (forall d :: d in done ==> d == "" || d in seen)
    && (forall p :: p in seen ==> p != "" && exists d, x :: d in done && Lists(ws, d, x) && x.path == p)
  }

  /** The unread entries of the directory being read are new, and different from each other. */
  ghost predicate Unread(ws: Workspace, dir: string, pending: seq<Entry>, done: set<string>, seen: set<string>) {
    && DistinctEntries(pending)
    && (forall entry :: entry in pending ==> entry.path !in seen)
    && (forall entry :: entry in pending && entry.path != "" ==> dir in done && Lists(ws, dir, entry))
  }

  lemma StartDirectory(ws: Workspace, stack: seq<string>, done: set<string>, seen: set<string>)
    requires TreeShaped(ws) && Progress(ws, stack, done, seen) && stack != [] && ws.list(stack[|stack| - 1]).Some?
    ensures
      var top := stack[|stack| - 1];
      Progress(ws, stack[..|stack| - 1], done + {top}, seen) && Unread(ws, top, ws.list(top).value, done + {top}, seen)
  {
    var top := stack[|stack| - 1];
    assert top in stack;
    var below := stack[..|stack| - 1];
    forall entry | entry in ws.list(top).value ensures entry.path !in seen {
      if entry.path in seen {
        var d, x :| d in done && Lists(ws, d, x) && x.path == entry.path;
        assert Lists(ws, top, entry);
      }
    }
  }

  lemma ReadOne(ws: Workspace, dir: string, pending: seq<Entry>, stack: seq<string>, done: set<string>,
                seen: set<string>)
    requires Progress(ws, stack, done, seen) && pending != [] && Unread(ws, dir, pending, done, seen)
    requires pending[0].path != ""
    ensures Progress(ws, Deeper(ws, pending[0], stack), done, seen + {pending[0].path})
    ensures Unread(ws, dir, pending[1..], done, seen + {pending[0].path})
  {
    var entry, rest := pending[0], pending[1..];
    assert entry in pending && Lists(ws, dir, entry);
    forall other | other in rest ensures other in pending && other.path != entry.path {
      var j :| 0 <= j < |rest| && rest[j] == other;
      assert pending[j + 1] == other;
    }
  }

  lemma WalkOne(ws: Workspace, pending: seq<Entry>, stack: seq<string>, left: nat) returns (items: seq<PathItem>)
    requires pending != [] && pending[0].path != "" && left > 0
    ensures items == Walk(ws, pending, stack, left).items
    ensures
      var rest := Walk(ws, pending[1..], Deeper(ws, pending[0], stack), left - 1).items;
      items == if Kept(ws, pending[0])
               then [PathItem(pending[0].path, pending[0].size, pending[0].mtime)] + rest else rest
  {
    items := Walk(ws, pending, stack, left).items;
  }

  lemma {:induction false} TreeWalkIsDistinct(ws: Workspace, dir: string, pending: seq<Entry>, stack: seq<string>,
                                              left: nat, done: set<string>, seen: set<string>)
    requires TreeShaped(ws) && Progress(ws, stack, done, seen) && Unread(ws, dir, pending, done, seen)
    ensures NewPaths(Walk(ws, pending, stack, left).items, seen)
    decreases left + |stack|, |pending|
  {
    if pending == [] {
      if stack != [] && ws.list(stack[|stack| - 1]).Some? {
        var top := stack[|stack| - 1];
        StartDirectory(ws, stack, done, seen);
        TreeWalkIsDistinct(ws, top, ws.list(top).value, stack[..|stack| - 1], left, done + {top}, seen);
      }
    } else if pending[0].path == "" {
      TreeWalkIsDistinct(ws, dir, pending[1..], stack, left, done, seen);
    } else if left > 0 {
      ReadOne(ws, dir, pending, stack, done, seen);
      var deeper := Deeper(ws, pending[0], stack);
      TreeWalkIsDistinct(ws, dir, pending[1..], deeper, left - 1, done, seen + {pending[0].path});
      var items := WalkOne(ws, pending, stack, left);
      PrependFresh(ws, pending, seen, Walk(ws, pending[1..], deeper, left - 1).items, items);
    }
  }

  lemma PrependFresh(ws: Workspace, pending: seq<Entry>, seen: set<string>, before: seq<PathItem>, after: seq<PathItem>)
    requires pending != [] && pending[0].path !in seen && NewPaths(before, seen + {pending[0].path})
    requires after == if Kept(ws, pending[0])
                      then [PathItem(pending[0].path, pending[0].size, pending[0].mtime)] + before else before
    ensures NewPaths(after, seen)
  {
  }

  ghost predicate NewPaths(items: seq<PathItem>, seen: set<string>) {
    DistinctPaths(items) && forall i :: 0 <= i < |items| ==> items[i].path !in seen
  }

  /** On a tree-shaped workspace no path is yielded twice, cut or not. */
  lemma TreeWalkYieldsOnce(ws: Workspace)
    requires TreeShaped(ws)
    ensures DistinctPaths(WalkFromRoot(ws).items)
  {
    var root := [""];
    assert Progress(ws, root, {}, {});
    TreeWalkIsDistinct(ws, "", [], root, MAX_VISITED_PATHS, {}, {});
  }
}
