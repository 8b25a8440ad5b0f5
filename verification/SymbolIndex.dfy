/** Building a symbol index from a listed workspace, and answering symbol queries from it. */
module SymbolIndex {
  import opened Basics
  import opened SymbolScan
  import opened Workspace
  import opened FileScan

  const SYMBOL_CAP := 10000

  datatype IndexEntry = IndexEntry(symbols: seq<Symbol>, truncated: bool)

  /** All symbols of the readable files, the reads left, and whether a read was refused. */
  datatype Gathered = Gathered(symbols: seq<Symbol>, quota: nat, refused: bool)

  ghost function SymbolsInside(ws: Workspace, path: string): seq<Symbol> {
    match Content(ws, path)
    case None => []
    case Some(lines) => FileSymbols(ws, path, lines)
  }

  ghost function GatherItem(ws: Workspace, path: string, before: Gathered): Gathered {
    if before.refused || !Readable(ws, path) then before
    else if before.quota == 0 then before.(refused := true)
    else Gathered(before.symbols + SymbolsInside(ws, path), before.quota - 1, false)
  }

  ghost function Gather(ws: Workspace, items: seq<PathItem>): Gathered {
    if items == [] then Gathered([], MAX_READ_FILES, false)
    else GatherItem(ws, ws.safe(items[|items| - 1].path), Gather(ws, items[..|items| - 1]))
  }

  lemma GatherNext(ws: Workspace, items: seq<PathItem>, item: PathItem)
    ensures Gather(ws, items + [item]) == GatherItem(ws, ws.safe(item.path), Gather(ws, items))
  {
    assert (items + [item])[..|items|] == items;
  }

  lemma KeptRowsCons(q: Query, first: Symbol, rest: seq<Symbol>)
    ensures KeptRows(q, [first] + rest) == KeptRows(q, [first]) + KeptRows(q, rest)
  {
    assert ([first] + rest)[1..] == rest;
    assert [first][1..] == [];
  }

  lemma {:induction false} KeptRowsConcat(q: Query, a: seq<Symbol>, b: seq<Symbol>)
    ensures KeptRows(q, a + b) == KeptRows(q, a) + KeptRows(q, b)
  {
    if a == [] {
      assert a + b == b;
    } else {
      var first, rest := a[0], a[1..];
      KeptRowsConcat(q, rest, b);
      KeptRowsCons(q, first, rest);
      KeptRowsCons(q, first, rest + b);
      assert a == [first] + rest;
      ConcatAssociates([first], rest, b);
      ConcatAssociates(KeptRows(q, [first]), KeptRows(q, rest), KeptRows(q, b));
    }
  }

  lemma {:induction false} KeptRowsPaths(q: Query, symbols: seq<Symbol>)
    ensures forall i :: 0 <= i < |KeptRows(q, symbols)| ==>
              KeptRows(q, symbols)[i].SymbolRow? && KeptRows(q, symbols)[i].symbol in symbols
  {
    if symbols == [] {
    } else {
      KeptRowsPaths(q, symbols[1..]);
    }
  }

  /** A symbol query finds exactly the gathered symbols it wants, in order, under the same read budget. */
  lemma {:induction false} ScanIsFilteredGather(ws: Workspace, q: Query, items: seq<PathItem>)
    requires q.Definition? || q.kind.SymbolOnly?
    ensures
      var all := Gather(ws, items);
      Scan(ws, q, None, items) == Trace(KeptRows(q, all.symbols), all.quota, all.refused)
  {
    if items == [] {
    } else {
      var shorter, last := items[..|items| - 1], items[|items| - 1];
      ScanIsFilteredGather(ws, q, shorter);
      assert items == shorter + [last];
      ScanNext(ws, q, None, shorter, last);
      SymbolPartOnly(ws, q, last.path);
      FilteredItem(ws, q, ws.safe(last.path), Gather(ws, shorter));
    }
  }

  lemma FilteredItem(ws: Workspace, q: Query, path: string, before: Gathered)
    requires q.Definition? || q.kind.SymbolOnly?
    ensures
      var after := GatherItem(ws, path, before);
      AddPart(Trace(KeptRows(q, before.symbols), before.quota, before.refused),
              Part([], Readable(ws, path), if Readable(ws, path) then SymbolPart(ws, q, path) else []))
      == Trace(KeptRows(q, after.symbols), after.quota, after.refused)
  {
    KeptRowsConcat(q, before.symbols, SymbolsInside(ws, path));
    var rows := KeptRows(q, before.symbols);
    assert rows + [] == rows;
    assert SymbolPart(ws, q, path) == KeptRows(q, SymbolsInside(ws, path));
  }

  /** `_symbol_index_item_from_result`. */
  function IndexItem(ws: Workspace, symbol: Symbol): Option<Symbol> {
    var path := ws.safe(symbol.path);
    if path == "" || symbol.line < 1 || symbol.column < 1 then None else Some(symbol.(path := path))
  }

  function Indexable(ws: Workspace, symbols: seq<Symbol>): seq<Symbol> {
    if symbols == [] then []
    else Indexable(ws, symbols[..|symbols| - 1]) +
         match IndexItem(ws, symbols[|symbols| - 1])
         case None => []
         case Some(item) => [item]
  }

  lemma {:induction false} IndexableConcat(ws: Workspace, a: seq<Symbol>, b: seq<Symbol>)
    ensures Indexable(ws, a + b) == Indexable(ws, a) + Indexable(ws, b)
  {
    if b == [] {
      assert a + b == a;
    } else {
      IndexableConcat(ws, a, b[..|b| - 1]);
      assert (a + b)[..|a + b| - 1] == a + b[..|b| - 1];
    }
  }

  predicate CanonicalPath(ws: Workspace, path: string) {
    path != "" && ws.safe(path) == path
  }

  lemma {:induction false} IndexableKeepsAll(ws: Workspace, symbols: seq<Symbol>)
    requires forall s :: s in symbols ==> CanonicalPath(ws, s.path) && s.line >= 1 && s.column >= 1
    ensures Indexable(ws, symbols) == symbols
  {
    if symbols == [] {
    } else {
      var last := symbols[|symbols| - 1];
      assert last in symbols;
      IndexableKeepsAll(ws, symbols[..|symbols| - 1]);
      assert IndexItem(ws, last) == Some(last);
    }
  }

  /** The index a fresh build would produce for these path items. */
  ghost function IndexOf(ws: Workspace, items: seq<PathItem>, cut: bool): IndexEntry {
    var all := Gather(ws, items);
    var symbols := Indexable(ws, all.symbols);
    IndexEntry(Take(symbols, SYMBOL_CAP), cut || all.refused || |symbols| > SYMBOL_CAP)
  }

  /** The inner loop of `_build_symbol_index`: append until one symbol too many turns up. */
  method AppendSymbols(ws: Workspace, kept: seq<Symbol>, symbols: seq<Symbol>)
    returns (items: seq<Symbol>, overflow: bool)
    requires |kept| <= SYMBOL_CAP
    ensures items == Take(kept + Indexable(ws, symbols), SYMBOL_CAP)
    ensures overflow <==> |kept + Indexable(ws, symbols)| > SYMBOL_CAP
  {
    items := kept;
    for i := 0 to |symbols|
      invariant items == kept + Indexable(ws, symbols[..i]) && |items| <= SYMBOL_CAP
    {
      assert symbols[..i + 1][..i] == symbols[..i];
      var item := IndexItem(ws, symbols[i]);
      if item.Some? {
        if |items| >= SYMBOL_CAP {
          IndexableConcat(ws, symbols[..i + 1], symbols[i + 1..]);
          assert symbols[..i + 1] + symbols[i + 1..] == symbols;
          return items, true;
        }
        items := items + [item.value];
      }
    }
    assert symbols[..|symbols|] == symbols;
    overflow := false;
  }

  ghost predicate SymbolOf(ws: Workspace, item: PathItem, s: Symbol) {
    s.path == ws.safe(item.path) && s.path != "" && s.line >= 1 && s.column >= 1
  }

  ghost predicate FromItems(ws: Workspace, symbols: seq<Symbol>, items: seq<PathItem>) {
    forall s :: s in symbols ==> exists i :: 0 <= i < |items| && SymbolOf(ws, items[i], s)
  }

  lemma FromMoreItems(ws: Workspace, symbols: seq<Symbol>, items: seq<PathItem>, own: seq<Symbol>, last: PathItem)
    requires FromItems(ws, symbols, items) && forall s :: s in own ==> SymbolOf(ws, last, s)
    ensures FromItems(ws, symbols + own, items + [last])
  {
    var longer := items + [last];
    forall s | s in symbols + own ensures exists i :: 0 <= i < |longer| && SymbolOf(ws, longer[i], s) {
      if s in symbols {
        var i :| 0 <= i < |items| && SymbolOf(ws, items[i], s);
        assert longer[i] == items[i];
      } else {
        assert longer[|items|] == last;
      }
    }
  }

  /** Gathering further only adds symbols of the further items, and nothing once a read was refused. */
  lemma {:induction false} GatherExtends(ws: Workspace, items: seq<PathItem>, more: seq<PathItem>)
    returns (tail: seq<Symbol>)
    ensures
      var before, after := Gather(ws, items), Gather(ws, items + more);
      after.symbols == before.symbols + tail && (before.refused ==> after == before)
    ensures FromItems(ws, tail, more)
  {
    if more == [] {
      assert items + more == items;
      tail := [];
      assert Gather(ws, items).symbols + tail == Gather(ws, items).symbols;
    } else {
      var shorter, last := more[..|more| - 1], more[|more| - 1];
      var shorterTail := GatherExtends(ws, items, shorter);
      assert items + more == items + shorter + [last] && shorter + [last] == more;
      tail := GatherOneMore(ws, items + shorter, last, Gather(ws, items), shorterTail, shorter);
    }
  }

  /** While no read was refused later, none was refused before. */
  lemma {:induction false} NotRefusedBefore(ws: Workspace, items: seq<PathItem>, i: nat, j: nat)
    requires i <= j <= |items| && !Gather(ws, items[..j]).refused
    ensures !Gather(ws, items[..i]).refused && Gather(ws, items[..i]).quota >= Gather(ws, items[..j]).quota
    decreases j
  {
    if i == j {
    } else {
      assert items[..j][..j - 1] == items[..j - 1];
      NotRefusedBefore(ws, items, i, j - 1);
    }
  }

  lemma GatherOneMore(ws: Workspace, items: seq<PathItem>, last: PathItem, start: Gathered, sofar: seq<Symbol>,
                      more: seq<PathItem>)
    returns (tail: seq<Symbol>)
    requires Gather(ws, items).symbols == start.symbols + sofar && FromItems(ws, sofar, more)
    requires start.refused ==> Gather(ws, items) == start
    ensures Gather(ws, items + [last]).symbols == start.symbols + tail && FromItems(ws, tail, more + [last])
    ensures start.refused ==> Gather(ws, items + [last]) == start
  {
    GatherNext(ws, items, last);
    var own := NewSymbols(ws, ws.safe(last.path), Gather(ws, items));
    FromMoreItems(ws, sofar, more, own, last);
    tail := sofar + own;
    ConcatAssociates(start.symbols, sofar, own);
  }

  lemma NewSymbols(ws: Workspace, path: string, before: Gathered) returns (own: seq<Symbol>)
    ensures GatherItem(ws, path, before).symbols == before.symbols + own
    ensures own == if before.refused || !Readable(ws, path) || before.quota == 0 then [] else SymbolsInside(ws, path)
    ensures forall s :: s in own ==> s.path == path != "" && s.line >= 1 && s.column >= 1
  {
    own := [];
    assert before.symbols + own == before.symbols;
    if !before.refused && Readable(ws, path) && before.quota > 0 {
      own := SymbolsInside(ws, path);
      if Content(ws, path).Some? && ws.classifier(path).Some? {
        SymbolRows(path, Content(ws, path).value, ws.classifier(path).value, |Content(ws, path).value|);
      }
    }
  }

  /** One file of `_build_symbol_index`; `symbols` grows unless the budget or the cap ends the build. */
  method IndexFile(ws: Workspace, path: string, symbols: seq<Symbol>, budget: TraversalBudget, ghost before: Gathered)
    returns (longer: seq<Symbol>, overflow: bool)
    requires budget.Valid() && !budget.truncated && |symbols| <= SYMBOL_CAP
    requires budget.ReadsLeft() == before.quota && !before.refused && symbols == Indexable(ws, before.symbols)
    modifies budget`readFiles, budget`truncated
    ensures budget.Valid()
    ensures
      var after := GatherItem(ws, path, before);
      && longer == Take(Indexable(ws, after.symbols), SYMBOL_CAP)
      && (overflow <==> |Indexable(ws, after.symbols)| > SYMBOL_CAP)
      && (budget.truncated <==> after.refused) && (!budget.truncated ==> budget.ReadsLeft() == after.quota)
  {
    longer, overflow := symbols, false;
    var content := ReadText(ws, path, budget);
    if content.None? {
      assert before.symbols + [] == before.symbols;
      return;
    }
    var found := SymbolResultsForFile(ws, path, content.value);
    IndexableConcat(ws, before.symbols, found);
    longer, overflow := AppendSymbols(ws, symbols, found);
  }

  /** `_build_symbol_index`. */
  method BuildSymbolIndex(ws: Workspace, pathItems: seq<PathItem>, pathsTruncated: bool) returns (entry: IndexEntry)
    ensures entry == IndexOf(ws, pathItems, pathsTruncated)
  {
    var budget := new TraversalBudget(MAX_VISITED_PATHS, MAX_READ_FILES);
    var symbols: seq<Symbol> := [];
    var overflow := false;
    var i := 0;
    ghost var done: seq<PathItem> := [];
    while i < |pathItems| && !budget.truncated && !overflow
      invariant i <= |pathItems| && done == pathItems[..i] && budget.Valid()
      invariant symbols == Take(Indexable(ws, Gather(ws, done).symbols), SYMBOL_CAP)
      invariant overflow <==> |Indexable(ws, Gather(ws, done).symbols)| > SYMBOL_CAP
      invariant budget.truncated <==> Gather(ws, done).refused
      invariant !budget.truncated ==> budget.ReadsLeft() == Gather(ws, done).quota
    {
      GatherNext(ws, done, pathItems[i]);
      symbols, overflow := IndexFile(ws, ws.safe(pathItems[i].path), symbols, budget, Gather(ws, done));
      done := done + [pathItems[i]];
      i := i + 1;
    }
    StopBuild(ws, done, pathItems[i..]);
    assert done + pathItems[i..] == pathItems;
    entry := IndexEntry(symbols, pathsTruncated || budget.truncated || overflow);
  }

  lemma StopBuild(ws: Workspace, done: seq<PathItem>, rest: seq<PathItem>)
    ensures
      var sofar, all := Gather(ws, done), Gather(ws, done + rest);
      && (sofar.refused || rest == [] ==> all == sofar)
      && (|Indexable(ws, sofar.symbols)| > SYMBOL_CAP ==>
            |Indexable(ws, all.symbols)| > SYMBOL_CAP &&
            Take(Indexable(ws, all.symbols), SYMBOL_CAP) == Take(Indexable(ws, sofar.symbols), SYMBOL_CAP))
  {
    var tail := GatherExtends(ws, done, rest);
    IndexableConcat(ws, Gather(ws, done).symbols, tail);
    assert rest == [] ==> done + rest == done;
  }

  /** `_symbol_index_response` and `_symbol_index_search_results`. */
  method AnswerFromIndex(entry: IndexEntry, q: Query, limit: nat) returns (response: Response)
    requires limit > 0 && q.Search?
    ensures response == IndexResponse(entry, q, limit)
  {
    var collector := new ResultCollector(limit);
    AddSymbolRows(q, entry.symbols, collector);
    assert [] + KeptRows(q, entry.symbols) == KeptRows(q, entry.symbols);
    response := Response(collector.results, collector.truncated || entry.truncated);
  }

  ghost predicate CanonicalItems(ws: Workspace, items: seq<PathItem>) {
    forall i :: 0 <= i < |items| ==> CanonicalPath(ws, items[i].path)
  }

  lemma GatheredAreIndexable(ws: Workspace, items: seq<PathItem>)
    requires CanonicalItems(ws, items)
    ensures Indexable(ws, Gather(ws, items).symbols) == Gather(ws, items).symbols
    ensures forall s :: s in Gather(ws, items).symbols ==> CanonicalPath(ws, s.path)
  {
    var tail := GatherExtends(ws, [], items);
    assert [] + items == items && Gather(ws, []).symbols + tail == tail;
    IndexableKeepsAll(ws, Gather(ws, items).symbols);
  }

  ghost function IndexResponse(entry: IndexEntry, q: Query, limit: nat): Response {
    Response(Take(KeptRows(q, entry.symbols), limit), |KeptRows(q, entry.symbols)| >= limit || entry.truncated)
  }

  lemma FittingIndex(q: Query, all: Gathered, cut: bool, limit: nat)
    requires |all.symbols| <= SYMBOL_CAP
    ensures IndexResponse(IndexEntry(Take(all.symbols, SYMBOL_CAP), cut || all.refused), q, limit)
            == Answer(Trace(KeptRows(q, all.symbols), all.quota, all.refused), limit, cut)
  {
  }

  lemma OverfullIndex(q: Query, all: Gathered, limit: nat)
    requires |all.symbols| > SYMBOL_CAP
    ensures IndexResponse(IndexEntry(Take(all.symbols, SYMBOL_CAP), true), q, limit).rows
         <= Take(KeptRows(q, all.symbols), limit)
  {
    KeptRowsConcat(q, all.symbols[..SYMBOL_CAP], all.symbols[SYMBOL_CAP..]);
    assert all.symbols[..SYMBOL_CAP] + all.symbols[SYMBOL_CAP..] == all.symbols;
  }

  /**
   The index is invisible: unless the symbol cap was hit, answering a symbol query from an index gives
   the rows and the flag of a scan. If the cap was hit, the rows are a prefix and the flag is set.
   */
  lemma IndexAnswersLikeScan(ws: Workspace, q: Query, items: seq<PathItem>, cut: bool, limit: nat)
    requires q.Search? && q.kind.SymbolOnly? && CanonicalItems(ws, items)
    ensures
      var response, scan := IndexResponse(IndexOf(ws, items, cut), q, limit),
                            Answer(Scan(ws, q, None, items), limit, cut);
      && (|Gather(ws, items).symbols| <= SYMBOL_CAP ==> response == scan)
      && (|Gather(ws, items).symbols| > SYMBOL_CAP ==> response.truncated && response.rows <= scan.rows)
  {
    GatheredAreIndexable(ws, items);
    ScanIsFilteredGather(ws, q, items);
    var all := Gather(ws, items);
    if |all.symbols| <= SYMBOL_CAP {
      FittingIndex(q, all, cut, limit);
    } else {
      OverfullIndex(q, all, limit);
    }
  }
}
