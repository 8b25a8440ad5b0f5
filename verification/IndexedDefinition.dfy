/** Looking up a definition through the index: only files that define the name are read again. */
module IndexedDefinition {
  import opened Basics
  import opened SymbolScan
  import opened Workspace
  import opened FileScan
  import opened SymbolIndex
  import opened RepeatedFiles

  /** The lookup after some index symbols: its rows and reads so far, and the files already read. */
  datatype Lookup = Lookup(trace: Trace, seen: set<string>)

  ghost function LookupStep(ws: Workspace, q: Query, before: Lookup, symbol: Symbol): Lookup
    requires q.Definition?
  {
    if before.trace.refused || symbol.name != q.name || symbol.path in before.seen then before
    else Lookup(AddPart(before.trace, PartOf(ws, q, None, symbol.path)), before.seen + {symbol.path})
  }

  ghost function LookupAll(ws: Workspace, q: Query, symbols: seq<Symbol>): Lookup
    requires q.Definition?
  {
    if symbols == [] then Lookup(Trace([], MAX_READ_FILES, false), {})
    else LookupStep(ws, q, LookupAll(ws, q, symbols[..|symbols| - 1]), symbols[|symbols| - 1])
  }

  lemma LookupNext(ws: Workspace, q: Query, symbols: seq<Symbol>, symbol: Symbol)
    requires q.Definition?
    ensures LookupAll(ws, q, symbols + [symbol]) == LookupStep(ws, q, LookupAll(ws, q, symbols), symbol)
  {
    assert (symbols + [symbol])[..|symbols|] == symbols;
  }

  lemma {:induction false} LookupExtends(ws: Workspace, q: Query, symbols: seq<Symbol>, more: seq<Symbol>)
    requires q.Definition?
    ensures Extends(LookupAll(ws, q, symbols).trace, LookupAll(ws, q, symbols + more).trace)
  {
    if more == [] {
      assert symbols + more == symbols;
    } else {
      var shorter, last := more[..|more| - 1], more[|more| - 1];
      LookupExtends(ws, q, symbols, shorter);
      assert symbols + more == symbols + shorter + [last];
      LookupNext(ws, q, symbols + shorter, last);
    }
  }

  lemma LookupFinished(ws: Workspace, q: Query, done: seq<Symbol>, rest: seq<Symbol>, results: seq<Row>, full: bool,
                       refused: bool, quota: nat)
    requires q.Definition? && (rest == [] || full || refused)
    requires Progress(LookupAll(ws, q, done).trace, results, full, refused, quota, DEFAULT_LIMIT)
    ensures Response(results, full || refused) == Answer(LookupAll(ws, q, done + rest).trace, DEFAULT_LIMIT, false)
  {
    LookupExtends(ws, q, done, rest);
    if full || refused {
      StoppedEarly(LookupAll(ws, q, done).trace, LookupAll(ws, q, done + rest).trace, results, full, refused, quota,
                   DEFAULT_LIMIT);
    } else {
      assert done + rest == done;
    }
  }

  lemma CutAt<T>(s: seq<T>, i: nat)
    requires i <= |s|
    ensures s[..i] + s[i..] == s && (i < |s| ==> s[..i + 1] == s[..i] + [s[i]])
  {
  }

  /** `_definition_index_response`. */
  method DefinitionFromIndex(ws: Workspace, q: Query, entry: IndexEntry) returns (response: Response)
    requires q.Definition?
    ensures response == Answer(LookupAll(ws, q, entry.symbols).trace, DEFAULT_LIMIT, entry.truncated)
  {
    var budget := new TraversalBudget(MAX_VISITED_PATHS, MAX_READ_FILES);
    var collector := new ResultCollector(DEFAULT_LIMIT);
    var seenPaths: set<string> := {};
    ghost var done: seq<Symbol> := [];
    var i := 0;
    while i < |entry.symbols| && !collector.truncated && !budget.truncated
      invariant i <= |entry.symbols| && done == entry.symbols[..i]
      invariant budget.Valid() && collector.Valid()
      invariant !collector.truncated && !budget.truncated ==> seenPaths == LookupAll(ws, q, done).seen
      invariant Progress(LookupAll(ws, q, done).trace, collector.results, collector.truncated, budget.truncated,
                         budget.ReadsLeft(), DEFAULT_LIMIT)
    {
      var symbol := entry.symbols[i];
      CutAt(entry.symbols, i);
      i := i + 1;
      LookupNext(ws, q, done, symbol);
      if symbol.name == q.name && symbol.path !in seenPaths {
        seenPaths := seenPaths + {symbol.path};
        ScanFile(ws, q, PathItem(symbol.path, "", ""), budget, collector, LookupAll(ws, q, done).trace);
      }
      done := done + [symbol];
    }
    CutAt(entry.symbols, i);
    LookupFinished(ws, q, done, entry.symbols[i..], collector.results, collector.truncated, budget.truncated,
                   budget.ReadsLeft());
    response := Response(collector.results, collector.truncated || budget.truncated || entry.truncated);
  }

  ghost function AfterFile(ws: Workspace, q: Query, start: Lookup, own: seq<Symbol>, path: string): Lookup
    requires q.Definition?
  {
    if KeptRows(q, own) == [] then start
    else Lookup(AddPart(start.trace, PartOf(ws, q, None, path)), start.seen + {path})
  }

  lemma AfterOneMore(ws: Workspace, q: Query, start: Lookup, own: seq<Symbol>, last: Symbol)
    requires q.Definition? && last.path !in start.seen && !start.trace.refused
    ensures LookupStep(ws, q, AfterFile(ws, q, start, own, last.path), last)
         == AfterFile(ws, q, start, own + [last], last.path)
  {
    KeptRowsConcat(q, own, [last]);
    assert [last][1..] == [];
    assert KeptRows(q, [last]) == [] <==> last.name != q.name;
  }

  /** Running through the symbols of one new file reads it once if it defines the name, and not at all otherwise. */
  lemma {:induction false} LookupOneFile(ws: Workspace, q: Query, before: seq<Symbol>, own: seq<Symbol>, path: string)
    requires q.Definition? && forall s :: s in own ==> s.path == path
    requires path !in LookupAll(ws, q, before).seen && !LookupAll(ws, q, before).trace.refused
    ensures LookupAll(ws, q, before + own) == AfterFile(ws, q, LookupAll(ws, q, before), own, path)
  {
    if own == [] {
      assert before + own == before;
    } else {
      var shorter, last := own[..|own| - 1], own[|own| - 1];
      assert last in own && own == shorter + [last];
      LookupOneFile(ws, q, before, shorter, path);
      assert before + own == before + shorter + [last];
      LookupNext(ws, q, before + shorter, last);
      AfterOneMore(ws, q, LookupAll(ws, q, before), shorter, last);
    }
  }

  /** The rows that a file adds to the answer each time it is read. */
  ghost function RowsOf(ws: Workspace, q: Query): string -> seq<Row> {
    path => if Readable(ws, path) then SymbolPart(ws, q, path) else []
  }

  function PathsOf(items: seq<PathItem>): seq<string> {
    seq(|items|, i requires 0 <= i < |items| => items[i].path)
  }

  lemma PathsNext(items: seq<PathItem>, item: PathItem)
    ensures PathsOf(items + [item]) == PathsOf(items) + [item.path]
  {
  }

  lemma PathsBefore(items: seq<PathItem>, j: nat)
    requires j <= |items|
    ensures PathsOf(items[..j]) == PathsOf(items)[..j]
  {
  }

  function RowOwner(row: Row): string {
    if row.SymbolRow? then row.symbol.path else row.path
  }

  lemma RowsAreOwned(ws: Workspace, q: Query)
    requires q.Definition?
    ensures Owned(RowsOf(ws, q), RowOwner)
  {
    forall path, i | 0 <= i < |RowsOf(ws, q)(path)| ensures RowOwner(RowsOf(ws, q)(path)[i]) == path {
      var own := OwnSymbols(ws, q, path, Gathered([], 1, false));
      KeptRowsPaths(q, own);
    }
  }

  lemma OwnSymbols(ws: Workspace, q: Query, path: string, before: Gathered) returns (own: seq<Symbol>)
    requires q.Definition? && !before.refused && !GatherItem(ws, path, before).refused
    ensures GatherItem(ws, path, before).symbols == before.symbols + own && KeptRows(q, own) == RowsOf(ws, q)(path)
    ensures forall s :: s in own ==> s.path == path
    ensures Readable(ws, path) ==> before.quota > 0
  {
    own := NewSymbols(ws, path, before);
    assert Readable(ws, path) ==> SymbolPart(ws, q, path) == KeptRows(q, own);
  }

  lemma LookupSkips(ws: Workspace, q: Query, symbols: seq<Symbol>, last: Symbol)
    requires q.Definition? && last.path in LookupAll(ws, q, symbols).seen
    ensures LookupAll(ws, q, symbols + [last]) == LookupAll(ws, q, symbols)
  {
    LookupNext(ws, q, symbols, last);
  }

  lemma {:induction false} LookupSkipsSeen(ws: Workspace, q: Query, before: seq<Symbol>, more: seq<Symbol>)
    requires q.Definition? && forall s :: s in more ==> s.path in LookupAll(ws, q, before).seen
    ensures LookupAll(ws, q, before + more) == LookupAll(ws, q, before)
  {
    if more == [] {
      assert before + more == before;
    } else {
      var shorter, last := more[..|more| - 1], more[|more| - 1];
      assert last in more;
      assert before + more == before + shorter + [last];
      LookupSkipsSeen(ws, q, before, shorter);
      LookupSkips(ws, q, before + shorter, last);
    }
  }

  /** Where the lookup and the scan stand: the lookup has read the files with rows, each of them once. */
  ghost predicate Abreast(lookup: Lookup, scan: Trace, all: Gathered, rows: string -> seq<Row>, paths: seq<string>) {
    && lookup.trace.rows == Once(rows, paths) && scan.rows == Whole(rows, paths)
    && !lookup.trace.refused && !scan.refused && !all.refused
    && lookup.trace.quota >= scan.quota == all.quota
    && forall path :: path in lookup.seen <==> path in paths && rows(path) != []
  }

  /** While every file can be read, the scan finds the rows of each file as often as it is listed, the lookup once. */
  lemma {:induction false} LookupIsOnce(ws: Workspace, q: Query, items: seq<PathItem>)
    requires q.Definition? && CanonicalItems(ws, items) && !Gather(ws, items).refused
    ensures Abreast(LookupAll(ws, q, Gather(ws, items).symbols), Scan(ws, q, None, items), Gather(ws, items),
                    RowsOf(ws, q), PathsOf(items))
  {
    if items == [] {
    } else {
      var shorter, item := items[..|items| - 1], items[|items| - 1];
      assert items == shorter + [item];
      GatherNext(ws, shorter, item);
      LookupIsOnce(ws, q, shorter);
      LookupItem(ws, q, shorter, item);
    }
  }

  /** The symbols of one more file make the lookup read it, unless it was read already or does not define the name. */
  lemma LookupOfItem(ws: Workspace, q: Query, path: string, all: Gathered)
    requires q.Definition? && CanonicalPath(ws, path) && !GatherItem(ws, path, all).refused
    requires !LookupAll(ws, q, all.symbols).trace.refused
    ensures
      var lookup, part := LookupAll(ws, q, all.symbols), Part([], Readable(ws, path), RowsOf(ws, q)(path));
      LookupAll(ws, q, GatherItem(ws, path, all).symbols)
      == if path in lookup.seen || RowsOf(ws, q)(path) == [] then lookup
         else Lookup(AddPart(lookup.trace, part), lookup.seen + {path})
    ensures Readable(ws, path) ==> all.quota > 0
  {
    SymbolPartOnly(ws, q, path);
    var own := OwnSymbols(ws, q, path, all);
    if path in LookupAll(ws, q, all.symbols).seen {
      LookupSkipsSeen(ws, q, all.symbols, own);
    } else {
      LookupOneFile(ws, q, all.symbols, own, path);
    }
  }

  lemma LookupItem(ws: Workspace, q: Query, done: seq<PathItem>, item: PathItem)
    requires q.Definition? && CanonicalPath(ws, item.path) && !Gather(ws, done + [item]).refused
    requires Abreast(LookupAll(ws, q, Gather(ws, done).symbols), Scan(ws, q, None, done), Gather(ws, done),
                     RowsOf(ws, q), PathsOf(done))
    ensures Abreast(LookupAll(ws, q, Gather(ws, done + [item]).symbols), Scan(ws, q, None, done + [item]),
                    Gather(ws, done + [item]), RowsOf(ws, q), PathsOf(done + [item]))
  {
    var path, all := item.path, Gather(ws, done);
    var lookup := LookupAll(ws, q, all.symbols);
    GatherNext(ws, done, item);
    ScanNext(ws, q, None, done, item);
    SymbolPartOnly(ws, q, path);
    LookupOfItem(ws, q, path, all);
    PathsNext(done, item);
    AbreastNext(lookup, Scan(ws, q, None, done), all, RowsOf(ws, q), PathsOf(done), path, Readable(ws, path));
  }

  /** What one file adds to the scan, and to the lookup unless it was read already. */
  lemma AbreastNext(lookup: Lookup, scan: Trace, all: Gathered, rows: string -> seq<Row>, paths: seq<string>,
                    path: string, readable: bool)
    requires Abreast(lookup, scan, all, rows, paths)
    requires readable ==> all.quota > 0
    requires !readable ==> rows(path) == []
    ensures
      var part := Part([], readable, rows(path));
      var after := if path in lookup.seen || rows(path) == [] then lookup
                   else Lookup(AddPart(lookup.trace, part), lookup.seen + {path});
      var grown := if readable then Gathered(all.symbols, all.quota - 1, false) else all;
      Abreast(after, AddPart(scan, part), grown, rows, paths + [path])
  {
    assert (paths + [path])[..|paths|] == paths;
    assert scan.rows + [] + rows(path) == scan.rows + rows(path);
    assert lookup.trace.rows + [] + rows(path) == lookup.trace.rows + rows(path);
  }

  /** The file at `j` defines the name and was listed before. */
  ghost predicate ListedAgain(ws: Workspace, q: Query, items: seq<PathItem>, j: int) {
    && 0 <= j < |items| && items[j].path in PathSet(items[..j])
    && Readable(ws, items[j].path) && SymbolPart(ws, q, items[j].path) != []
  }

  lemma ListedAgainIsRepeated(ws: Workspace, q: Query, items: seq<PathItem>, j: int)
    ensures ListedAgain(ws, q, items, j) <==> Repeated(RowsOf(ws, q), PathsOf(items), j)
  {
    if 0 <= j < |items| {
      var before, paths := items[..j], PathsOf(items);
      if items[j].path in PathSet(before) {
        var i :| 0 <= i < |before| && before[i].path == items[j].path;
        assert paths[..j][i] == items[j].path;
      }
      if paths[j] in paths[..j] {
        var i :| 0 <= i < |paths[..j]| && paths[..j][i] == paths[j];
        assert before[i].path == items[j].path;
      }
    }
  }

  /**
   Reading only the files that define the name finds what reading all of them finds, if and only if no
   file that defines it is listed twice.
   */
  lemma LookupIsScan(ws: Workspace, q: Query, items: seq<PathItem>)
    requires q.Definition? && CanonicalItems(ws, items) && !Gather(ws, items).refused
    ensures LookupAll(ws, q, Gather(ws, items).symbols).trace.rows == Scan(ws, q, None, items).rows
            <==> forall j :: !ListedAgain(ws, q, items, j)
  {
    LookupIsOnce(ws, q, items);
    RowsAreOwned(ws, q);
    SameWithoutLimit(RowsOf(ws, q), RowOwner, PathsOf(items));
    forall j ensures ListedAgain(ws, q, items, j) <==> Repeated(RowsOf(ws, q), PathsOf(items), j) {
      ListedAgainIsRepeated(ws, q, items, j);
    }
  }

  lemma RowsBefore(ws: Workspace, q: Query, items: seq<PathItem>, j: nat)
    requires q.Definition? && CanonicalItems(ws, items) && !Gather(ws, items).refused && j <= |items|
    ensures Scan(ws, q, None, items[..j]).rows == Whole(RowsOf(ws, q), PathsOf(items)[..j])
  {
    assert items[..|items|] == items;
    NotRefusedBefore(ws, items, j, |items|);
    LookupIsOnce(ws, q, items[..j]);
    PathsBefore(items, j);
  }

  /** Every file that defines the name and is listed again comes after `limit` rows were found. */
  ghost predicate FullBeforeRepeats(ws: Workspace, q: Query, items: seq<PathItem>, limit: nat) {
    forall j :: ListedAgain(ws, q, items, j) ==> |Scan(ws, q, None, items[..j]).rows| >= limit
  }

  lemma FullBeforeRepeatsIsLimitFirst(ws: Workspace, q: Query, items: seq<PathItem>, limit: nat)
    requires q.Definition? && CanonicalItems(ws, items) && !Gather(ws, items).refused
    ensures FullBeforeRepeats(ws, q, items, limit) <==> LimitFirst(RowsOf(ws, q), PathsOf(items), limit)
  {
    forall j ensures ListedAgain(ws, q, items, j) <==> Repeated(RowsOf(ws, q), PathsOf(items), j) {
      ListedAgainIsRepeated(ws, q, items, j);
    }
    forall j | 0 <= j <= |items|
      ensures Scan(ws, q, None, items[..j]).rows == Whole(RowsOf(ws, q), PathsOf(items)[..j])
    {
      RowsBefore(ws, q, items, j);
    }
  }

  /**
   With a complete index, a definition request returns what the full scan returns, if and only if the
   result limit is reached before a file that defines the name is listed again.
   */
  lemma IndexedDefinitionAgrees(ws: Workspace, q: Query, items: seq<PathItem>, cut: bool)
    requires q.Definition? && CanonicalItems(ws, items)
    requires !IndexOf(ws, items, cut).truncated
    ensures
      var entry := IndexOf(ws, items, cut);
      Answer(LookupAll(ws, q, entry.symbols).trace, DEFAULT_LIMIT, entry.truncated)
      == Answer(Scan(ws, q, None, items), DEFAULT_LIMIT, cut)
      <==> FullBeforeRepeats(ws, q, items, DEFAULT_LIMIT)
  {
    GatheredAreIndexable(ws, items);
    assert IndexOf(ws, items, cut).symbols == Gather(ws, items).symbols;
    LookupIsOnce(ws, q, items);
    RowsAreOwned(ws, q);
    FullBeforeRepeatsIsLimitFirst(ws, q, items, DEFAULT_LIMIT);
    SameExactlyWhen(RowsOf(ws, q), RowOwner, PathsOf(items), DEFAULT_LIMIT);
  }

  lemma NeverRefusedTwice(ws: Workspace, item: PathItem)
    ensures !Gather(ws, [item, item]).refused
  {
    TwoOf(item);
    GatherNext(ws, [], item);
    GatherNext(ws, [item], item);
  }

  /** A file that is listed twice, as a file with a link to it is: the scan finds its rows twice, the lookup once. */
  lemma FileListedTwice(ws: Workspace, q: Query, item: PathItem)
    requires q.Definition? && CanonicalPath(ws, item.path)
    ensures
      var items, rows := [item, item], RowsOf(ws, q)(item.path);
      && Scan(ws, q, None, items).rows == rows + rows
      && LookupAll(ws, q, Gather(ws, items).symbols).trace.rows == rows
      && (FullBeforeRepeats(ws, q, items, DEFAULT_LIMIT) <==> rows == [] || |rows| >= DEFAULT_LIMIT)
  {
    var items, rows := [item, item], RowsOf(ws, q);
    TwoOf(item);
    NeverRefusedTwice(ws, item);
    LookupIsOnce(ws, q, items);
    FullBeforeRepeatsIsLimitFirst(ws, q, items, DEFAULT_LIMIT);
    assert PathsOf(items) == [item.path] + [item.path];
    TwoOccurrences(rows, item.path, DEFAULT_LIMIT);
  }
}
