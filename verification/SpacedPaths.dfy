/**
 What happens to a file that is listed under a path that sanitising changes: the index files its symbols under the
 sanitised path, while a combined search asks for those of the listed one.
 */
module SpacedPaths {
  import opened Basics
  import opened Text
  import opened RelPath
  import opened Sorting
  import opened SymbolScan
  import opened Workspace
  import opened FileScan
  import opened SymbolIndex
  import opened IndexedSearch
  import opened ListedPaths

  /** The table that a combined search builds from the index of these path items. */
  ghost predicate IsTable(ws: Workspace, q: Query, table: map<string, seq<Row>>, items: seq<PathItem>, cut: bool,
                          limit: nat)
    requires q.Search?
  {
    forall path :: Held(table, path) == GroupAt(ws, IndexResponse(IndexOf(ws, items, cut), q, limit).rows, path)
  }

  lemma {:induction false} GroupAtNone(ws: Workspace, rows: seq<Row>, path: string)
    requires forall i :: 0 <= i < |rows| ==> rows[i].SymbolRow? && ws.safe(rows[i].symbol.path) != path
    ensures GroupAt(ws, rows, path) == []
  {
    if rows == [] {
    } else {
      GroupAtNone(ws, rows[..|rows| - 1], path);
    }
  }

  /** Sanitising a listed path twice is sanitising it once. */
  ghost predicate SettledItems(ws: Workspace, items: seq<PathItem>) {
    forall i :: 0 <= i < |items| ==> CanonicalPath(ws, ws.safe(items[i].path))
  }

  lemma IndexIsSettled(ws: Workspace, items: seq<PathItem>, cut: bool)
    requires SettledItems(ws, items)
    ensures forall s :: s in IndexOf(ws, items, cut).symbols ==> CanonicalPath(ws, s.path)
  {
    var all := Gather(ws, items).symbols;
    var tail := GatherExtends(ws, [], items);
    assert [] + items == items && [] + tail == tail;
    forall s | s in all ensures CanonicalPath(ws, s.path) && s.line >= 1 && s.column >= 1 {
      var i :| 0 <= i < |items| && SymbolOf(ws, items[i], s);
    }
    IndexableKeepsAll(ws, all);
  }

  /** No file that is listed under a path that sanitising changes gets a row from the index. */
  lemma IndexGivesNothing(ws: Workspace, q: Query, table: map<string, seq<Row>>, items: seq<PathItem>, cut: bool,
                          limit: nat, path: string)
    requires q.Search? && SettledItems(ws, items) && IsTable(ws, q, table, items, cut, limit)
    requires !CanonicalPath(ws, path)
    ensures Held(table, path) == []
  {
    var entry := IndexOf(ws, items, cut);
    var rows := IndexResponse(entry, q, limit).rows;
    IndexIsSettled(ws, items, cut);
    KeptRowsPaths(q, entry.symbols);
    forall i | 0 <= i < |rows| ensures rows[i].SymbolRow? && ws.safe(rows[i].symbol.path) != path {
      assert rows[i] == KeptRows(q, entry.symbols)[i];
      assert rows[i].symbol in entry.symbols;
    }
    GroupAtNone(ws, rows, path);
  }

  /** The rows of a search for one file, which is read under the sanitised path. */
  lemma OneFileRows(ws: Workspace, q: Query, table: Option<map<string, seq<Row>>>, item: PathItem)
    requires q.Search? && q.kind.AllKinds? && Readable(ws, ws.safe(item.path))
    ensures
      var path := ws.safe(item.path);
      Scan(ws, q, table, [item]).rows
      == PathRows(q, item.path) + TextPart(ws, q, path)
         + if table.Some? then Held(table.value, item.path) else SymbolPart(ws, q, path)
  {
    ScanNext(ws, q, table, [], item);
    assert [] + [item] == [item] && [item][..0] == [];
  }

  lemma SameTake(text: seq<Row>, own: seq<Row>, limit: nat)
    ensures Take(text + own, limit) == Take(text, limit) <==> own == [] || |text| >= limit
  {
    if |text| >= limit {
      assert Take(text + own, limit) == Take(text, limit);
    } else if own == [] {
      assert text + own == text;
    }
  }

  /**
   A workspace with one such file: with an index the search loses its symbol rows, so that the rows are those of a
   search without one exactly when it has none or its other rows fill the limit.
   */
  lemma OneFileAgreesWhen(ws: Workspace, q: Query, table: map<string, seq<Row>>, item: PathItem, cut: bool, limit: nat)
    requires q.Search? && q.kind.AllKinds? && IsTable(ws, q, table, [item], cut, limit)
    requires !CanonicalPath(ws, item.path) && CanonicalPath(ws, ws.safe(item.path)) && Readable(ws, ws.safe(item.path))
    ensures
      var path := ws.safe(item.path);
      Take(Scan(ws, q, Some(table), [item]).rows, limit) == Take(Scan(ws, q, None, [item]).rows, limit)
      <==> SymbolPart(ws, q, path) == [] || |PathRows(q, item.path) + TextPart(ws, q, path)| >= limit
  {
    var text, own := PathRows(q, item.path) + TextPart(ws, q, ws.safe(item.path)),
                     SymbolPart(ws, q, ws.safe(item.path));
    IndexGivesNothing(ws, q, table, [item], cut, limit, item.path);
    OneFileRows(ws, q, Some(table), item);
    OneFileRows(ws, q, None, item);
    assert text + [] == text;
    SameTake(text, own, limit);
  }

  /** What the companion replies: a file whose name ends in a space, reported with a trailing dot segment. */
  function SpacedReply(base: string): string -> Option<seq<RawEntry>> {
    dir => if dir == "" then Some([RawEntry(base + " /.", Regular, "", "")]) else None
  }

  lemma SpacedPath(base: string)
    requires CleanPath(base) && '/' !in base && !EdgeSpace(base)
    ensures SafeRelPath(base + " /.") == base + " " && SafeRelPath(base + " ") == base && base != ""
  {
    CleanPathNonempty(base);
    CleanPathFixpoint(base);
    var name := base + " ";
    assert name[0] == base[0] && name[|name| - 1] == ' ' && PythonSpace(' ');
    assert name + "/." == base + " /.";
    SafeRelPathNotIdempotent(name);
    TrimIgnoresTheEnd(base, ' ', PythonSpace);
    assert NormalizeInput(name) == NormalizeInput(base);
  }

  lemma OneFileWalk(safe: string -> string, path: string, name: string)
    requires path != ""
    ensures WalkFromRoot(Listing(safe, [Entry(path, Regular, "", "")], name))
         == Walked([PathItem(path, "", "")], false, false)
  {
    var ws, entry, item := Listing(safe, [Entry(path, Regular, "", "")], name), Entry(path, Regular, "", ""),
                           PathItem(path, "", "");
    var none := [];
    assert [""][..0] == none && [entry][1..] == [];
    assert Walk(ws, [], none, MAX_VISITED_PATHS - 1) == Walked([], false, false);
    assert Walk(ws, [entry], none, MAX_VISITED_PATHS) == Walked([item], false, false);
  }

  lemma OneFileInOrder(path: string)
    ensures InReadingOrder([RawEntry(path, Regular, "", "")]) == [Entry(SafeRelPath(path), Regular, "", "")]
  {
    var raw := RawEntry(path, Regular, "", "");
    assert [raw][1..] == [];
    assert Sort([raw], EntryKey) == [raw];
    assert Sanitise([raw]) == [Entry(SafeRelPath(path), Regular, "", "")];
  }

  /** A search with an index and one without show different rows. */
  ghost predicate IndexShows(ws: Workspace, q: Query, table: map<string, seq<Row>>, limit: nat) {
    var items := WalkFromRoot(ws).items;
    Take(Scan(ws, q, Some(table), items).rows, limit) != Take(Scan(ws, q, None, items).rows, limit)
  }

  lemma SpacedFileDiffers(safe: string -> string, path: string, name: string, q: Query, limit: nat,
                          table: map<string, seq<Row>>)
    requires path != "" && safe(path) != path && safe(path) != "" && safe(safe(path)) == safe(path)
    requires q.Search? && q.kind.AllKinds? && Match(q.matcher, name).Some? && limit > 2
    requires var ws := Listing(safe, [Entry(path, Regular, "", "")], name);
             IsTable(ws, q, table, WalkFromRoot(ws).items, WalkFromRoot(ws).cut, limit)
    ensures IndexShows(Listing(safe, [Entry(path, Regular, "", "")], name), q, table, limit)
  {
    var entries := [Entry(path, Regular, "", "")];
    var ws, item, found := Listing(safe, entries, name), PathItem(path, "", ""), safe(path);
    OneFileWalk(safe, path, name);
    var symbol := ListingSymbols(safe, entries, found, name);
    assert [symbol][1..] == [];
    assert KeptRows(q, [symbol]) == [SymbolRow(symbol, SymbolFallback)];
    assert SymbolPart(ws, q, found) == KeptRows(q, SymbolsInside(ws, found));
    assert |TextRows(q.matcher, found, [name], 1)| == 0 && |TextPart(ws, q, found)| == 1;
    OneFileAgreesWhen(ws, q, table, item, false, limit);
  }

  lemma SpacedIsStandard(safe: string -> string, base: string, name: string)
    requires SafeRelPath(base + " /.") == base + " " && forall p :: safe(p) == SafeRelPath(p)
    ensures Standard(Listing(safe, [Entry(base + " ", Regular, "", "")], name), SpacedReply(base))
  {
    OneFileInOrder(base + " /.");
  }

  /**
   For every plain file name there is such a workspace: the companion reports the name with a space and a trailing
   dot segment behind it, and every combined search that finds the symbol of the file shows whether there is an index.
   */
  lemma SpacedFileShows(base: string, name: string, m: Matcher, limit: nat) returns (ws: Workspace)
    requires CleanPath(base) && '/' !in base && !EdgeSpace(base) && Match(m, name).Some? && limit > 2
    ensures Standard(ws, SpacedReply(base)) && WalkFromRoot(ws) == Walked([PathItem(base + " ", "", "")], false, false)
    ensures forall table :: IsTable(ws, Search(AllKinds, m), table, WalkFromRoot(ws).items, false, limit) ==>
              IndexShows(ws, Search(AllKinds, m), table, limit)
  {
    var safe := (p: string) => SafeRelPath(p);
    var path, q := base + " ", Search(AllKinds, m);
    SpacedPath(base);
    CleanPathFixpoint(base);
    SpacedIsStandard(safe, base, name);
    OneFileWalk(safe, path, name);
    ws := Listing(safe, [Entry(path, Regular, "", "")], name);
    forall table | IsTable(ws, q, table, WalkFromRoot(ws).items, false, limit) ensures IndexShows(ws, q, table, limit) {
      SpacedFileDiffers(safe, path, name, q, limit, table);
    }
  }
}
