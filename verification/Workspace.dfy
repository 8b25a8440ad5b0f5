/**
 Listing a remote workspace (`_TraversalBudget`, `_WorkspaceFiles`): a depth-first walk over
 companion directory listings, bounded by a budget that the walk shares with its consumer.
 */
module Workspace {
  import opened Basics
  import opened RelPath
  import opened Sorting
  import opened SymbolScan

  const MAX_VISITED_PATHS := 5000
  const MAX_READ_FILES := 1000

  /** `Unnamed` is the empty kind, which the navigation walk treats as a regular file. */
  datatype EntryKind = Directory | Regular | Unnamed | Other

  /** A directory entry as the companion lists it. */
  datatype RawEntry = RawEntry(relPath: string, kind: EntryKind, size: string, mtime: string)

  /** A directory entry with its path sanitised; the empty path marks a refused one. */
  datatype Entry = Entry(path: string, kind: EntryKind, size: string, mtime: string)

  function EntryKey(entry: RawEntry): string {
    entry.relPath
  }

  function Sanitise(entries: seq<RawEntry>): seq<Entry> {
    if entries == [] then []
    else
      var raw := entries[0];
      [Entry(SafeRelPath(raw.relPath), raw.kind, raw.size, raw.mtime)] + Sanitise(entries[1..])
  }

  /** The entries of a reply in the order a walk reads them. */
  function InReadingOrder(reply: seq<RawEntry>): seq<Entry> {
    Sanitise(Sort(reply, EntryKey))
  }

  datatype PathItem = PathItem(path: string, size: string, mtime: string)

  /** What distinguishes one indexed view of a workspace from another, apart from its files. */
  datatype View = View(spaceId: int, companionId: int, root: string, includes: seq<string>, excludes: seq<string>)

  /**
   Companion replies, path sanitising and pattern matching, as functions. `list` is None when the
   request fails and otherwise the reply in reading order. The proofs hold for any `safe`; `Standard`
   says that it is the real one.
   */
  datatype Workspace = Workspace(
    view: View,
    list: string -> Option<seq<Entry>>,
    safe: string -> string,
    read: string -> Option<seq<string>>,
    binaryPath: string -> bool,
    binaryContent: seq<string> -> bool,
    excluded: (string, bool) -> bool,
    included: string -> bool,
    classifier: string -> Option<Classifier>)

  ghost predicate Standard(ws: Workspace, reply: string -> Option<seq<RawEntry>>) {
    && (forall path :: ws.safe(path) == SafeRelPath(path))
    && (forall dir :: ws.list(dir) == if reply(dir).None? then None else Some(InReadingOrder(reply(dir).value)))
  }

  /** What is left for a walk to yield: the items, whether the budget cut it, whether a listing failed. */
  datatype Walked = Walked(items: seq<PathItem>, cut: bool, failed: bool)

  predicate Kept(ws: Workspace, entry: Entry) {
    !entry.kind.Directory? && !entry.kind.Other? && !ws.excluded(entry.path, false) && ws.included(entry.path)
  }

  /**
   The walk from a given point: `pending` are the unread entries of the current directory, `stack`
   the directories still to list, `left` how many more paths the budget allows.
   */
  function Walk(ws: Workspace, pending: seq<Entry>, stack: seq<string>, left: nat): Walked
    decreases left + |stack|, |pending|
  {
    if pending == [] then
      if stack == [] then Walked([], false, false)
      else
        match ws.list(stack[|stack| - 1])
        case None => Walked([], false, true)
        case Some(entries) => Walk(ws, entries, stack[..|stack| - 1], left)
    else
      var entry, rest := pending[0], pending[1..];
      var path := entry.path;
      if path == "" then Walk(ws, rest, stack, left)
      else if left == 0 then Walked([], true, false)
      else if entry.kind.Directory? then
        Walk(ws, rest, if ws.excluded(path, true) then stack else stack + [path], left - 1)
      else if Kept(ws, entry) then
        Ahead([PathItem(path, entry.size, entry.mtime)], Walk(ws, rest, stack, left - 1))
      else Walk(ws, rest, stack, left - 1)
  }

  function Ahead(items: seq<PathItem>, walk: Walked): Walked {
    if items == [] then walk else walk.(items := items + walk.items)
  }

  lemma AheadOne(items: seq<PathItem>, item: PathItem, walk: Walked)
    ensures Ahead(items, Ahead([item], walk)) == Ahead(items + [item], walk)
  {
    assert items + ([item] + walk.items) == items + [item] + walk.items;
  }

  function WalkFromRoot(ws: Workspace): Walked {
    Walk(ws, [], [""], MAX_VISITED_PATHS)
  }

  ghost predicate DistinctPaths(items: seq<PathItem>) {
    forall i, j :: 0 <= i < j < |items| ==> items[i].path != items[j].path
  }

  /** `_TraversalBudget`. */
  class TraversalBudget {
    const maxVisitedPaths: nat
    const maxReadFiles: nat
    var visitedPaths: nat
    var readFiles: nat
    var truncated: bool

    constructor (maxVisitedPaths: nat, maxReadFiles: nat)
      ensures this.maxVisitedPaths == maxVisitedPaths && this.maxReadFiles == maxReadFiles
      ensures visitedPaths == 0 && readFiles == 0 && !truncated
    {
      this.maxVisitedPaths, this.maxReadFiles := maxVisitedPaths, maxReadFiles;
      visitedPaths, readFiles, truncated := 0, 0, false;
    }

    ghost predicate Valid() reads this {
      visitedPaths <= maxVisitedPaths && readFiles <= maxReadFiles
    }

    ghost function PathsLeft(): nat
      reads this`visitedPaths
      requires visitedPaths <= maxVisitedPaths
    {
      maxVisitedPaths - visitedPaths
    }

    ghost function ReadsLeft(): nat
      reads this`readFiles
      requires readFiles <= maxReadFiles
    {
      maxReadFiles - readFiles
    }

    method ConsumePath() returns (ok: bool)
      requires Valid()
      modifies this`visitedPaths, this`truncated
      ensures Valid()
      ensures ok <==> old(PathsLeft()) > 0
      ensures PathsLeft() == if ok then old(PathsLeft()) - 1 else 0
      ensures truncated == (old(truncated) || !ok)
    {
      if visitedPaths >= maxVisitedPaths {
        truncated := true;
        return false;
      }
      visitedPaths := visitedPaths + 1;
      return true;
    }

    method ConsumeRead() returns (ok: bool)
      requires Valid()
      modifies this`readFiles, this`truncated
      ensures Valid()
      ensures ok <==> old(ReadsLeft()) > 0
      ensures ReadsLeft() == if ok then old(ReadsLeft()) - 1 else 0
      ensures truncated == (old(truncated) || !ok)
    {
      if readFiles >= maxReadFiles {
        truncated := true;
        return false;
      }
      readFiles := readFiles + 1;
      return true;
    }
  }

  datatype Step = Item(item: PathItem) | Done | Failed

  /**
   `iter_path_items` and `_iter_search_path_items` as an object that produces one item per call:
   either an already listed sequence, or a walk whose position is `pending` and `stack`.
   */
  class PathSource {
    const ws: Workspace
    const budget: TraversalBudget
    var listed: seq<PathItem>
    var pending: seq<Entry>
    var stack: seq<string>
    ghost var listings: nat

    constructor Listed(ws: Workspace, budget: TraversalBudget, items: seq<PathItem>)
      requires budget.Valid()
      ensures this.ws == ws && this.budget == budget
      ensures Rest() == Walked(items, false, false)
    {
      this.ws, this.budget := ws, budget;
      listed, pending, stack, listings := items, [], [], 0;
    }

    constructor Walking(ws: Workspace, budget: TraversalBudget)
      requires budget.Valid()
      ensures this.ws == ws && this.budget == budget && listings == 0 && |stack| == 1
      ensures Rest() == Walk(ws, [], [""], budget.PathsLeft())
    {
      this.ws, this.budget := ws, budget;
      listed, pending, stack, listings := [], [], [""], 0;
    }

    /** What is left to yield. Reading files does not change it. */
    ghost function Rest(): Walked
      reads this, budget`visitedPaths
      requires budget.visitedPaths <= budget.maxVisitedPaths
    {
      Ahead(listed, Walk(ws, pending, stack, budget.PathsLeft()))
    }

    ghost function Fuel(): nat
      reads this, budget`visitedPaths
      requires budget.visitedPaths <= budget.maxVisitedPaths
    {
      listings + |stack| + budget.PathsLeft()
    }

    /** List the directory on top of the stack. */
    method ListDirectory() returns (ok: bool)
      requires budget.Valid() && listed == [] && pending == [] && stack != []
      modifies this`pending, this`stack, this`listings
      ensures stack == old(stack)[..|old(stack)| - 1] && Fuel() == old(Fuel())
      ensures ok ==> Rest() == old(Rest())
      ensures !ok ==> old(Rest()) == Walked([], false, true)
    {
      var current := stack[|stack| - 1];
      stack, listings := stack[..|stack| - 1], listings + 1;
      var reply := ws.list(current);
      ok := reply.Some?;
      if ok {
        pending := reply.value;
      }
    }

    /** Read one directory entry: skip it, push it, yield it or run out of budget. */
    method ReadEntry() returns (step: Option<Step>)
      requires budget.Valid() && !budget.truncated && listed == [] && pending != []
      modifies this`pending, this`stack, budget`visitedPaths, budget`truncated
      ensures budget.Valid() && Fuel() <= old(Fuel()) && |pending| < |old(pending)|
      ensures budget.PathsLeft() + |stack| <= old(budget.PathsLeft() + |stack|)
      ensures step.None? ==> !budget.truncated && Rest() == old(Rest())
      ensures step == Some(Done) ==> budget.truncated && old(Rest()) == Walked([], true, false)
      ensures step.Some? ==> step.value.Item? || step.value.Done?
      ensures step.Some? && step.value.Item? ==> !budget.truncated
      ensures step.Some? && step.value.Item? ==> old(Rest()) == Ahead([step.value.item], Rest())
    {
      var entry := pending[0];
      pending := pending[1..];
      var path := entry.path;
      if path == "" {
        return None;
      }
      var ok := budget.ConsumePath();
      if !ok {
        return Some(Done);
      }
      if entry.kind.Directory? {
        if !ws.excluded(path, true) {
          stack := stack + [path];
        }
        return None;
      }
      if entry.kind.Other? || ws.excluded(path, false) || !ws.included(path) {
        return None;
      }
      return Some(Item(PathItem(path, entry.size, entry.mtime)));
    }

    /** A walk that was not cut yields its items one by one, then ends or fails. Each directory costs one listing. */
    method Next() returns (step: Step)
      requires budget.Valid() && !budget.truncated
      modifies this, budget`visitedPaths, budget`truncated
      ensures budget.Valid() && Fuel() <= old(Fuel())
      ensures step.Item? ==> !budget.truncated && old(Rest()) == Ahead([step.item], Rest())
      ensures step.Done? ==> old(Rest()) == Walked([], budget.truncated, false)
      ensures step.Failed? ==> old(Rest()) == Walked([], false, true) && !budget.truncated
    {
      if listed != [] {
        step := Item(listed[0]);
        listed := listed[1..];
        return;
      }
      while pending != [] || stack != []
        invariant listed == [] && budget.Valid() && !budget.truncated
        invariant Rest() == old(Rest()) && Fuel() <= old(Fuel())
        decreases budget.PathsLeft() + |stack|, |pending|
      {
        if pending == [] {
          var ok := ListDirectory();
          if !ok {
            return Failed;
          }
        } else {
          var found := ReadEntry();
          if found.Some? {
            return found.value;
          }
        }
      }
      return Done;
    }
  }

  /** The listing half of `_symbol_index_context`; None when a directory cannot be listed. */
  method ListPaths(ws: Workspace) returns (listing: Option<Walked>, ghost listings: nat)
    ensures listing == if WalkFromRoot(ws).failed then None else Some(WalkFromRoot(ws))
    ensures listings <= 1 + MAX_VISITED_PATHS
  {
    var budget := new TraversalBudget(MAX_VISITED_PATHS, MAX_READ_FILES);
    var source := new PathSource.Walking(ws, budget);
    ghost var whole := source.Rest();
    var items: seq<PathItem> := [];
    var step := Done;
    var more := true;
    while more
      invariant budget.Valid() && source.Fuel() <= 1 + MAX_VISITED_PATHS
      invariant more ==> !budget.truncated && whole == Ahead(items, source.Rest())
      invariant !more ==> whole == Walked(items, !step.Failed? && budget.truncated, step.Failed?)
      decreases more, if more then |source.Rest().items| else 0
    {
      step := source.Next();
      if step.Item? {
        AheadOne(items, step.item, source.Rest());
        items := items + [step.item];
      } else {
        more := false;
      }
    }
    listings := source.listings;
    listing := if step.Failed? then None else Some(Walked(items, budget.truncated, false));
  }
}
