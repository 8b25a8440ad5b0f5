/** `_search_scan`: one pass over the workspace for file, text and symbol rows, with or without an index. */
module CombinedScan {
  import opened Basics
  import opened Workspace
  import opened FileScan

  lemma CollectMore(start: seq<Row>, a: seq<Row>, mid: seq<Row>, b: seq<Row>, results: seq<Row>, full: bool, limit: nat)
    requires Collected(start, a, limit, mid, false) && Collected(mid, b, limit, results, full)
    ensures Collected(start, a + b, limit, results, full)
  {
    assert start + a + b == start + (a + b);
  }

  lemma CollectedEnough(start: seq<Row>, a: seq<Row>, b: seq<Row>, results: seq<Row>, limit: nat)
    requires Collected(start, a, limit, results, true)
    ensures Collected(start, a + b, limit, results, true)
  {
    assert start + a + b == start + (a + b);
  }

  method AddPathRow(q: Query, path: string, collector: ResultCollector)
    requires q.Search? && collector.Valid() && !collector.truncated
    modifies collector
    ensures collector.Valid()
    ensures Collected(old(collector.results), PathRows(q, path), collector.limit, collector.results,
                      collector.truncated)
  {
    assert collector.results + [] == collector.results;
    if q.kind.AllKinds? || q.kind.FileKind? {
      var found := Match(q.matcher, path);
      if found.Some? {
        var _ := collector.Add(FileRow(path, found.value + 1));
      }
    }
  }

  /** The rows of one file: its text rows, then what the index holds for it, then its own symbols. */
  method AddInside(ws: Workspace, q: Query, path: string, held: Option<seq<Row>>, content: Option<seq<string>>,
                   collector: ResultCollector)
    requires q.Search? && ReadsFiles(q) && collector.Valid() && !collector.truncated
    requires content == if Readable(ws, ws.safe(path)) then Content(ws, ws.safe(path)) else None
    modifies collector
    ensures collector.Valid()
    ensures Collected(old(collector.results), PartOf(ws, q, held, path).inside, collector.limit, collector.results,
                      collector.truncated)
  {
    ghost var start, limit := collector.results, collector.limit;
    ghost var text := if content.Some? then TextPart(ws, q, ws.safe(path)) else [];
    ghost var own := if content.Some? then SymbolPart(ws, q, ws.safe(path)) else [];
    ghost var after := if held.Some? then held.value else own;
    assert PartOf(ws, q, held, path).inside == text + after;
    assert start + [] == start;
    if content.Some? && (q.kind.AllKinds? || q.kind.TextKind?) {
      AddTextRows(q.matcher, ws.safe(path), content.value, collector);
      if collector.truncated {
        CollectedEnough(start, text, after, collector.results, limit);
        return;
      }
    }
    ghost var mid := collector.results;
    assert mid + [] == mid;
    if held.Some? {
      AddRows(held.value, collector);
    } else if content.Some? && (q.kind.AllKinds? || q.kind.SymbolOnly?) {
      var symbols := SymbolResultsForFile(ws, ws.safe(path), content.value);
      AddSymbolRows(q, symbols, collector);
    }
    CollectMore(start, text, mid, after, collector.results, collector.truncated, limit);
  }

  method SearchItem(ws: Workspace, q: Query, item: PathItem, held: Option<seq<Row>>, budget: TraversalBudget,
                    collector: ResultCollector, ghost before: Trace)
    requires q.Search?
    requires budget.Valid() && !budget.truncated && collector.Valid() && !collector.truncated
    requires Progress(before, collector.results, false, false, budget.ReadsLeft(), collector.limit)
    modifies budget`readFiles, budget`truncated, collector
    ensures budget.Valid() && collector.Valid()
    ensures Progress(AddPart(before, PartOf(ws, q, held, item.path)), collector.results, collector.truncated,
                     budget.truncated, budget.ReadsLeft(), collector.limit)
  {
    ghost var part, start, quota := PartOf(ws, q, held, item.path), collector.results, budget.ReadsLeft();
    AddPathRow(q, item.path, collector);
    if collector.truncated {
      FullBeforeReading(before, part, start, quota, collector.results, collector.limit, quota);
      return;
    }
    ghost var mid := collector.results;
    if q.kind.FileKind? {
      assert part.first + part.inside == part.first;
      PartCollected(before, part, start, quota, mid, false, collector.limit);
      return;
    }
    var content := ReadText(ws, ws.safe(item.path), budget);
    if budget.truncated {
      PartRefused(before, part, start, mid, false, collector.limit);
      return;
    }
    AddInside(ws, q, item.path, held, content, collector);
    CollectMore(start, part.first, mid, part.inside, collector.results, collector.truncated, collector.limit);
    PartCollected(before, part, start, quota, collector.results, collector.truncated, collector.limit);
  }

  lemma FullBeforeReading(before: Trace, part: Part, start: seq<Row>, quota: nat, results: seq<Row>, limit: nat,
                          after: nat)
    requires Progress(before, start, false, false, quota, limit)
    requires Collected(start, part.first, limit, results, true)
    ensures Progress(AddPart(before, part), results, true, false, after, limit)
  {
    assert before.rows == start;
  }

  /** The loop of `_search_scan` over a source of path items; index rows are popped path by path. */
  method ScanSource(ws: Workspace, q: Query, limit: nat, source: PathSource, budget: TraversalBudget,
                    byPath: Option<map<string, seq<Row>>>, cut: bool)
    returns (result: Result)
    requires limit > 0 && q.Search? && source.budget == budget
    requires budget.Valid() && !budget.truncated && budget.ReadsLeft() == MAX_READ_FILES
    modifies source, budget
    ensures result == Outcome(Scan(ws, q, byPath, old(source.Rest()).items), limit, old(source.Rest()), cut)
  {
    var collector := new ResultCollector(limit);
    var table := byPath;
    assert PathSet([]) == {} && Without(byPath, {}) == byPath by {
      assert byPath.Some? ==> byPath.value - {} == byPath.value;
    }
    ghost var walk := source.Rest();
    ghost var done: seq<PathItem> := [];
    while !collector.truncated && !budget.truncated
      invariant budget.Valid() && collector.Valid() && fresh(collector)
      invariant walk == Ahead(done, source.Rest())
      invariant table == Without(byPath, PathSet(done))
      invariant Progress(Scan(ws, q, byPath, done), collector.results, collector.truncated, budget.truncated,
                         budget.ReadsLeft(), limit)
      decreases |source.Rest().items|
    {
      var step := source.Next();
      if !step.Item? {
        ScanRanOut(ws, q, byPath, done, Walked([], budget.truncated, step.Failed?), collector.results,
                   budget.ReadsLeft(), limit, cut);
      }
      if step.Failed? {
        return Failure;
      }
      if step.Done? {
        return Success(Response(collector.results, budget.truncated || cut));
      }
      AheadOne(done, step.item, source.Rest());
      ScanNext(ws, q, byPath, done, step.item);
      HandedOut(byPath, done, step.item);
      var held := HeldIn(table, step.item.path);
      table := Without(table, {step.item.path});
      SearchItem(ws, q, step.item, held, budget, collector, Scan(ws, q, byPath, done));
      done := done + [step.item];
    }
    ScanStopped(ws, q, byPath, done, source.Rest(), collector.results, collector.truncated, budget.truncated,
                budget.ReadsLeft(), limit, cut);
    result := Success(Response(collector.results, collector.truncated || budget.truncated || cut));
  }

  function HeldIn(table: Option<map<string, seq<Row>>>, path: string): Option<seq<Row>> {
    if table.None? then None else Some(Held(table.value, path))
  }

  function Without(table: Option<map<string, seq<Row>>>, paths: set<string>): Option<map<string, seq<Row>>> {
    if table.None? then None else Some(table.value - paths)
  }

  lemma HandedOut(byPath: Option<map<string, seq<Row>>>, done: seq<PathItem>, item: PathItem)
    ensures HeldAt(byPath, done + [item], |done|) == HeldIn(Without(byPath, PathSet(done)), item.path)
    ensures Without(Without(byPath, PathSet(done)), {item.path}) == Without(byPath, PathSet(done + [item]))
  {
    var longer := done + [item];
    assert longer[..|done|] == done && longer[|done|] == item;
    assert PathSet(longer) == PathSet(done) + {item.path} by {
      assert forall i :: 0 <= i < |done| ==> longer[i] == done[i];
    }
    if byPath.Some? {
      assert byPath.value - PathSet(done) - {item.path} == byPath.value - (PathSet(done) + {item.path});
    }
  }

  /**
   `_search_scan`. `listed` are the path items of an index context, if there is one; otherwise the
   scan lists directories as it goes.
   */
  method SearchScan(ws: Workspace, q: Query, limit: nat, listed: Option<Walked>, byPath: Option<map<string, seq<Row>>>,
                    indexedTruncated: bool)
    returns (result: Result)
    requires limit > 0 && q.Search?
    requires listed.Some? ==> !listed.value.failed
    requires listed.None? ==> byPath.None? && !indexedTruncated
    ensures listed.None? ==> result == Reference(ws, q, limit)
    ensures listed.Some? ==>
              result
              == Success(Answer(Scan(ws, q, byPath, listed.value.items), limit, listed.value.cut || indexedTruncated))
  {
    var budget := new TraversalBudget(MAX_VISITED_PATHS, MAX_READ_FILES);
    if listed.Some? {
      var source := new PathSource.Listed(ws, budget, listed.value.items);
      result := ScanSource(ws, q, limit, source, budget, byPath, listed.value.cut || indexedTruncated);
    } else {
      var source := new PathSource.Walking(ws, budget);
      result := ScanSource(ws, q, limit, source, budget, None, false);
    }
  }
}
