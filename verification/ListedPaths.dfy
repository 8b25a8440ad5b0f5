/** When the listing of a real workspace meets the conditions of the index theorems. */
module ListedPaths {
  import opened Basics
  import opened RelPath
  import opened Sorting
  import opened SymbolScan
  import opened Workspace
  import opened WalkProperties
  import opened FileScan
  import opened SymbolIndex
  import opened IndexedSearch
  import opened IndexedDefinition
  import opened CodeNavigation

  ghost predicate CleanEntries(entries: seq<Entry>) {
    forall i :: 0 <= i < |entries| ==> entries[i].path == "" || CleanPath(entries[i].path)
  }

  lemma {:induction false} SanitisedEntriesAreClean(entries: seq<RawEntry>)
    ensures CleanEntries(Sanitise(entries)) && |Sanitise(entries)| == |entries|
  {
    if entries == [] {
    } else {
      SanitisedEntriesAreClean(entries[1..]);
      if SafeRelPath(entries[0].relPath) != "" {
        SafeRelPathIsClean(entries[0].relPath);
      }
    }
  }

  lemma {:induction false} WalkYieldsListedPaths(ws: Workspace, pending: seq<Entry>, stack: seq<string>, left: nat)
    requires CleanEntries(pending)
    requires forall dir :: ws.list(dir).Some? ==> CleanEntries(ws.list(dir).value)
    ensures forall i :: 0 <= i < |Walk(ws, pending, stack, left).items| ==>
              CleanPath(Walk(ws, pending, stack, left).items[i].path)
    decreases left + |stack|, |pending|
  {
    if pending == [] {
      if stack != [] && ws.list(stack[|stack| - 1]).Some? {
        WalkYieldsListedPaths(ws, ws.list(stack[|stack| - 1]).value, stack[..|stack| - 1], left);
      }
    } else if pending[0].path == "" {
      WalkYieldsListedPaths(ws, pending[1..], stack, left);
    } else if left > 0 {
      WalkYieldsListedPaths(ws, pending[1..], Deeper(ws, pending[0], stack), left - 1);
    }
  }

  /** Whatever the companion replies, no walk yields a path that leaves the workspace root. */
  lemma WalkStaysInside(ws: Workspace, reply: string -> Option<seq<RawEntry>>)
    requires Standard(ws, reply)
    ensures forall i :: 0 <= i < |WalkFromRoot(ws).items| ==> CleanPath(WalkFromRoot(ws).items[i].path)
  {
    forall dir | ws.list(dir).Some? ensures CleanEntries(ws.list(dir).value) {
      SanitisedEntriesAreClean(Sort(reply(dir).value, EntryKey));
    }
    WalkYieldsListedPaths(ws, [], [""], MAX_VISITED_PATHS);
  }

  lemma ListedOnce(ws: Workspace, q: Query, items: seq<PathItem>, limit: nat)
    requires DistinctPaths(items)
    ensures NothingTorn(ws, q, items, limit) && FullBeforeRepeats(ws, q, items, limit)
  {
    forall j | 0 <= j < |items| ensures items[j].path !in PathSet(items[..j]) {
      forall i | 0 <= i < j ensures items[..j][i].path != items[j].path {
        assert items[..j][i] == items[i];
      }
    }
  }

  /**
   On a tree of files every path is listed once, so that no request shows whether an index answered it, and the
   paths are what the index needs exactly when none of them begins or ends with white space.
   */
  lemma WellListedWhen(ws: Workspace, reply: string -> Option<seq<RawEntry>>, q: Query, limit: nat)
    requires Standard(ws, reply) && TreeShaped(ws)
    ensures NothingTorn(ws, q, WalkFromRoot(ws).items, limit) && FullBeforeRepeats(ws, q, WalkFromRoot(ws).items, limit)
    ensures WellListed(ws) <==>
            forall i :: 0 <= i < |WalkFromRoot(ws).items| ==> !EdgeSpace(WalkFromRoot(ws).items[i].path)
  {
    TreeWalkYieldsOnce(ws);
    ListedOnce(ws, q, WalkFromRoot(ws).items, limit);
    ListedPathsAreCanonical(ws, reply);
  }

  lemma ListedPathsAreCanonical(ws: Workspace, reply: string -> Option<seq<RawEntry>>)
    requires Standard(ws, reply)
    ensures WellListed(ws) <==>
            forall i :: 0 <= i < |WalkFromRoot(ws).items| ==> !EdgeSpace(WalkFromRoot(ws).items[i].path)
  {
    WalkStaysInside(ws, reply);
    var items := WalkFromRoot(ws).items;
    forall i | 0 <= i < |items| ensures CanonicalPath(ws, items[i].path) <==> !EdgeSpace(items[i].path) {
      CleanPathNonempty(items[i].path);
      CleanPathFixpoint(items[i].path);
    }
    assert CanonicalItems(ws, items) <==> forall i :: 0 <= i < |items| ==> !EdgeSpace(items[i].path);
  }

  /** A workspace whose root lists some files, each of one line that defines `name`. */
  ghost function Listing(safe: string -> string, entries: seq<Entry>, name: string): Workspace {
    Workspace(View(0, 0, "", [], []), dir => if dir == "" then Some(entries) else None, safe, _ => Some([name]),
              _ => false, _ => false, (_, _) => false, _ => true, _ => Some(line => Some(Hit(Function, line, 0))))
  }

  /** A file and a link to it. */
  ghost function Linked(safe: string -> string, path: string, name: string): Workspace {
    Listing(safe, [Entry(path, Regular, "", ""), Entry(path, Regular, "", "")], name)
  }

  /** Both children resolve to the same file, so that is the path the companion reports for both. */
  function LinkedReply(path: string): string -> Option<seq<RawEntry>> {
    dir => if dir == "" then Some([RawEntry(path, Regular, "", ""), RawEntry(path, Regular, "", "")]) else None
  }

  lemma LinkedInOrder(path: string)
    requires SafeRelPath(path) == path
    ensures InReadingOrder([RawEntry(path, Regular, "", ""), RawEntry(path, Regular, "", "")])
            == [Entry(path, Regular, "", ""), Entry(path, Regular, "", "")]
  {
    var raw, entry := RawEntry(path, Regular, "", ""), Entry(path, Regular, "", "");
    LexTotal(path, path);
    assert [raw, raw][1..] == [raw] && [raw][1..] == [];
    assert Sort([raw], EntryKey) == [raw];
    assert Sort([raw, raw], EntryKey) == [raw, raw];
    assert Sanitise([raw]) == [entry];
    assert Sanitise([raw, raw]) == [entry] + Sanitise([raw]);
  }

  lemma LinkedWalk(safe: string -> string, path: string, name: string)
    requires path != ""
    ensures WalkFromRoot(Linked(safe, path, name))
         == Walked([PathItem(path, "", ""), PathItem(path, "", "")], false, false)
  {
    var ws, entry, item := Linked(safe, path, name), Entry(path, Regular, "", ""), PathItem(path, "", "");
    var entries, none := [entry, entry], [];
    assert [""][..0] == none && entries[1..] == [entry] && [entry][1..] == [];
    assert Walk(ws, [], none, MAX_VISITED_PATHS - 2) == Walked([], false, false);
    assert Walk(ws, [entry], none, MAX_VISITED_PATHS - 1) == Walked([item], false, false);
    assert Walk(ws, entries, none, MAX_VISITED_PATHS) == Walked([item] + [item], false, false);
  }

  lemma ListingSymbols(safe: string -> string, entries: seq<Entry>, path: string, name: string) returns (symbol: Symbol)
    ensures symbol.name == name && SymbolsInside(Listing(safe, entries, name), path) == [symbol]
  {
    var lines: seq<string>, classify := [name], (line: string) => Some(Hit(Function, line, 0));
    symbol := Symbol(Function, name, ContainerOf(lines, classify, 0), path, 1, 1);
    assert SymbolAt(path, lines, classify, 0) == [symbol];
    assert SymbolsUpTo(path, lines, classify, 0) == [];
    assert SymbolsUpTo(path, lines, classify, 1) == [symbol];
  }

  lemma GatherAdds(ws: Workspace, items: seq<PathItem>, item: PathItem, symbol: Symbol)
    requires CanonicalPath(ws, item.path) && Readable(ws, item.path) && SymbolsInside(ws, item.path) == [symbol]
    requires !Gather(ws, items).refused && Gather(ws, items).quota > 0
    ensures
      var before := Gather(ws, items);
      Gather(ws, items + [item]) == Gathered(before.symbols + [symbol], before.quota - 1, false)
  {
    GatherNext(ws, items, item);
  }

  lemma GatherOfTwice(ws: Workspace, item: PathItem, symbol: Symbol)
    requires CanonicalPath(ws, item.path) && Readable(ws, item.path) && SymbolsInside(ws, item.path) == [symbol]
    ensures Gather(ws, [item, item]) == Gathered([symbol, symbol], MAX_READ_FILES - 2, false)
  {
    TwoOf(item);
    TwoOf(symbol);
    GatherAdds(ws, [], item, symbol);
    GatherAdds(ws, [item], item, symbol);
  }

  /** The index of a workspace that lists one file twice holds its symbols twice. */
  lemma IndexOfTwice(ws: Workspace, item: PathItem, symbol: Symbol)
    requires CanonicalPath(ws, item.path) && Readable(ws, item.path) && SymbolsInside(ws, item.path) == [symbol]
    ensures IndexOf(ws, [item, item], false) == IndexEntry(Gather(ws, [item, item]).symbols, false)
  {
    GatherOfTwice(ws, item, symbol);
    CompleteIndex(ws, [item, item], false);
  }

  lemma OneRow(ws: Workspace, path: string, symbol: Symbol)
    requires Readable(ws, path) && SymbolsInside(ws, path) == [symbol]
    ensures |RowsOf(ws, Definition(symbol.name))(path)| == 1
  {
    var q := Definition(symbol.name);
    assert [symbol][1..] == [];
    assert KeptRows(q, [symbol]) == [SymbolRow(symbol, DefinitionFallback)];
    assert SymbolPart(ws, q, path) == KeptRows(q, SymbolsInside(ws, path));
  }

  /** The scan finds a definition twice that is found once through the index, although the index is complete. */
  ghost predicate FoundOnceByIndex(ws: Workspace, name: string) {
    var walk, entry := WalkFromRoot(ws), CurrentIndex(ws);
    && !walk.failed && CanonicalItems(ws, walk.items) && !entry.truncated
    && |Scan(ws, Definition(name), None, walk.items).rows| == 2
    && |LookupAll(ws, Definition(name), entry.symbols).trace.rows| == 1
  }

  lemma ListedTwiceFoundOnce(ws: Workspace, items: seq<PathItem>, name: string, rows: seq<Row>)
    requires WalkFromRoot(ws) == Walked(items, false, false) && CanonicalItems(ws, items) && |rows| == 1
    requires IndexOf(ws, items, false) == IndexEntry(Gather(ws, items).symbols, false)
    requires Scan(ws, Definition(name), None, items).rows == rows + rows
    requires LookupAll(ws, Definition(name), Gather(ws, items).symbols).trace.rows == rows
    ensures FoundOnceByIndex(ws, name)
  {
  }

  lemma TwiceFoundOnce(ws: Workspace, item: PathItem, symbol: Symbol)
    requires CanonicalPath(ws, item.path) && Readable(ws, item.path) && SymbolsInside(ws, item.path) == [symbol]
    requires WalkFromRoot(ws) == Walked([item, item], false, false)
    ensures FoundOnceByIndex(ws, symbol.name)
  {
    IndexOfTwice(ws, item, symbol);
    OneRow(ws, item.path, symbol);
    FileListedTwice(ws, Definition(symbol.name), item);
    ListedTwiceFoundOnce(ws, [item, item], symbol.name, RowsOf(ws, Definition(symbol.name))(item.path));
  }

  lemma LinkedFoundOnce(safe: string -> string, path: string, name: string)
    requires path != "" && safe(path) == path
    ensures FoundOnceByIndex(Linked(safe, path, name), name)
  {
    var ws, item := Linked(safe, path, name), PathItem(path, "", "");
    LinkedWalk(safe, path, name);
    var symbol := ListingSymbols(safe, [Entry(path, Regular, "", ""), Entry(path, Regular, "", "")], path, name);
    TwiceFoundOnce(ws, item, symbol);
  }

  lemma LinkedIsStandard(safe: string -> string, path: string, name: string)
    requires SafeRelPath(path) == path && forall p :: safe(p) == SafeRelPath(p)
    ensures Standard(Linked(safe, path, name), LinkedReply(path))
  {
    LinkedInOrder(path);
  }

  /** A link inside the workspace is enough, whatever the clean path of the file it leads to. */
  lemma LinkedFileFoundOnce(path: string, name: string) returns (ws: Workspace)
    requires CleanPath(path) && !EdgeSpace(path)
    ensures Standard(ws, LinkedReply(path)) && FoundOnceByIndex(ws, name)
  {
    var safe := (p: string) => SafeRelPath(p);
    CleanPathNonempty(path);
    CleanPathFixpoint(path);
    LinkedIsStandard(safe, path, name);
    LinkedFoundOnce(safe, path, name);
    ws := Linked(safe, path, name);
  }

  lemma LinkedTorn(safe: string -> string, path: string, name: string, m: Matcher, limit: nat)
    requires path != "" && safe(path) == path && Match(m, name).Some? && limit > 3
    ensures !NothingTorn(Linked(safe, path, name), Search(AllKinds, m), WalkFromRoot(Linked(safe, path, name)).items,
                         limit)
  {
    var ws, q, item := Linked(safe, path, name), Search(AllKinds, m), PathItem(path, "", "");
    LinkedWalk(safe, path, name);
    var symbol := ListingSymbols(safe, [Entry(path, Regular, "", ""), Entry(path, Regular, "", "")], path, name);
    assert [symbol][1..] == [];
    assert KeptRows(q, [symbol]) == [SymbolRow(symbol, SymbolFallback)];
    assert SymbolPart(ws, q, path) == KeptRows(q, SymbolsInside(ws, path));
    assert |TextRows(m, path, [name], 1)| == 0 && |TextPart(ws, q, path)| == 1;
    FileListedTwiceIsTorn(ws, q, item, limit);
  }

  /** The same link makes a combined search show whether an index was used: the order of its rows differs. */
  lemma LinkedFileTorn(path: string, name: string, m: Matcher, limit: nat) returns (ws: Workspace)
    requires CleanPath(path) && !EdgeSpace(path) && Match(m, name).Some? && limit > 3
    ensures Standard(ws, LinkedReply(path)) && !NothingTorn(ws, Search(AllKinds, m), WalkFromRoot(ws).items, limit)
  {
    var safe := (p: string) => SafeRelPath(p);
    CleanPathNonempty(path);
    CleanPathFixpoint(path);
    LinkedIsStandard(safe, path, name);
    LinkedTorn(safe, path, name, m, limit);
    ws := Linked(safe, path, name);
  }
}
