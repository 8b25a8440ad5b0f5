/**
 Scanning the files of a workspace for search rows, symbols and definitions, without an index.
 Result limits and read budgets make every loop leave early; `Scan` is what the loops would
 produce with no limit at all, and `Answer` cuts that to the limit.
 */
module FileScan {
  import opened Basics
  import opened SymbolScan
  import opened Workspace

  const DEFAULT_LIMIT := 100

  datatype SearchKind = AllKinds | FileKind | TextKind | SymbolOnly

  /** The search matcher: `find` is the offset of the first match, if any. */
  datatype Matcher = Matcher(query: string, find: string -> Option<nat>)

  datatype Query = Search(kind: SearchKind, matcher: Matcher) | Definition(name: string)

  datatype Backend = TextFallback | SymbolFallback | DefinitionFallback

  /** A result row; previews are left out because index rows carry none. */
  datatype Row =
    | FileRow(path: string, column: nat)
    | TextRow(path: string, line: nat, column: nat)
    | SymbolRow(symbol: Symbol, backend: Backend)

  datatype Response = Response(rows: seq<Row>, truncated: bool)

  /** A response, or the listing error the request ends with. */
  datatype Result = Success(response: Response) | Failure

  function Match(m: Matcher, text: string): Option<nat> {
    if m.query == "" then None else m.find(text)
  }

  predicate WantsSymbol(q: Query, name: string) {
    match q
    case Search(_, m) => m.query == "" || Match(m, name).Some?
    case Definition(wanted) => name == wanted
  }

  predicate ReadsFiles(q: Query) {
    q.Definition? || !q.kind.FileKind?
  }

  predicate ScansText(q: Query) {
    q.Search? && (q.kind.AllKinds? || q.kind.TextKind?)
  }

  predicate ScansSymbols(q: Query) {
    q.Definition? || q.kind.AllKinds? || q.kind.SymbolOnly?
  }

  function PathRows(q: Query, path: string): seq<Row> {
    if q.Search? && (q.kind.AllKinds? || q.kind.FileKind?) then
      match Match(q.matcher, path)
      case None => []
      case Some(start) => [FileRow(path, start + 1)]
    else []
  }

  function TextRows(m: Matcher, path: string, lines: seq<string>, from: nat): seq<Row>
    requires from <= |lines|
    decreases |lines| - from
  {
    if from == |lines| then []
    else
      (match Match(m, lines[from])
       case None => []
       case Some(start) => [TextRow(path, from + 1, start + 1)]) + TextRows(m, path, lines, from + 1)
  }

  function BackendOf(q: Query): Backend {
    if q.Definition? then DefinitionFallback else SymbolFallback
  }

  function KeptRows(q: Query, symbols: seq<Symbol>): seq<Row> {
    if symbols == [] then []
    else
      var kept := if WantsSymbol(q, symbols[0].name) then [SymbolRow(symbols[0], BackendOf(q))] else [];
      kept + KeptRows(q, symbols[1..])
  }

  ghost function FileSymbols(ws: Workspace, path: string, lines: seq<string>): seq<Symbol> {
    match ws.classifier(path)
    case None => []
    case Some(classify) => SymbolsOf(path, lines, classify)
  }

  /** Whether looking at this path costs a read; other paths are never requested. */
  predicate Readable(ws: Workspace, path: string) {
    path != "" && !ws.binaryPath(path)
  }

  function Content(ws: Workspace, path: string): Option<seq<string>> {
    match ws.read(path)
    case None => None
    case Some(lines) => if ws.binaryContent(lines) then None else Some(lines)
  }

  ghost function TextPart(ws: Workspace, q: Query, path: string): seq<Row> {
    match Content(ws, path)
    case None => []
    case Some(lines) => if ScansText(q) then TextRows(q.matcher, path, lines, 0) else []
  }

  ghost function SymbolPart(ws: Workspace, q: Query, path: string): seq<Row> {
    match Content(ws, path)
    case None => []
    case Some(lines) => if ScansSymbols(q) then KeptRows(q, FileSymbols(ws, path, lines)) else []
  }

  /** What a table of index rows holds for one path. */
  function Held(byPath: map<string, seq<Row>>, path: string): seq<Row> {
    if path in byPath then byPath[path] else []
  }

  /** Symbol rows come from the file, or from `held` when an index answers for them. */
  ghost function RowsInside(ws: Workspace, q: Query, held: Option<seq<Row>>, path: string): seq<Row> {
    TextPart(ws, q, ws.safe(path)) +
    match held
    case None => SymbolPart(ws, q, ws.safe(path))
    case Some(rows) => rows
  }

  /** What one item contributes: rows before its file is read, whether it is read, rows after that. */
  datatype Part = Part(first: seq<Row>, costsRead: bool, inside: seq<Row>)

  ghost function PartOf(ws: Workspace, q: Query, held: Option<seq<Row>>, path: string): Part {
    if !ReadsFiles(q) then Part(PathRows(q, path), false, [])
    else if !Readable(ws, ws.safe(path)) then Part(PathRows(q, path), false, if held.Some? then held.value else [])
    else Part(PathRows(q, path), true, RowsInside(ws, q, held, path))
  }

  ghost function PathSet(items: seq<PathItem>): set<string> {
    set i | 0 <= i < |items| :: items[i].path
  }

  /** Index rows for the item at `i`: they are handed out once per path. */
  ghost function HeldAt(table: Option<map<string, seq<Row>>>, items: seq<PathItem>, i: nat): Option<seq<Row>>
    requires i < |items|
  {
    if table.None? then None
    else if items[i].path in PathSet(items[..i]) then Some([])
    else Some(Held(table.value, items[i].path))
  }

  ghost function PartsOf(ws: Workspace, q: Query, table: Option<map<string, seq<Row>>>, items: seq<PathItem>): seq<Part>
  {
    seq(|items|, i requires 0 <= i < |items| => PartOf(ws, q, HeldAt(table, items, i), items[i].path))
  }

  /** The rows found, the reads left, and whether a read was refused for lack of budget. */
  datatype Trace = Trace(rows: seq<Row>, quota: nat, refused: bool)

  function AddPart(before: Trace, part: Part): Trace {
    if before.refused then before
    else if !part.costsRead then before.(rows := before.rows + part.first + part.inside)
    else if before.quota == 0 then Trace(before.rows + part.first, 0, true)
    else Trace(before.rows + part.first + part.inside, before.quota - 1, false)
  }

  /** With no result limit, only the read budget ends a scan early. */
  function Run(parts: seq<Part>): Trace {
    if parts == [] then Trace([], MAX_READ_FILES, false)
    else AddPart(Run(parts[..|parts| - 1]), parts[|parts| - 1])
  }

  /** A scan of all of `items`; `table` is what an index supplies, if one is used. */
  ghost function Scan(ws: Workspace, q: Query, table: Option<map<string, seq<Row>>>, items: seq<PathItem>): Trace {
    Run(PartsOf(ws, q, table, items))
  }

  lemma RunNext(parts: seq<Part>, last: Part)
    ensures Run(parts + [last]) == AddPart(Run(parts), last)
  {
    assert (parts + [last])[..|parts|] == parts;
  }

  lemma PartsNext(ws: Workspace, q: Query, table: Option<map<string, seq<Row>>>, items: seq<PathItem>, item: PathItem)
    ensures PartsOf(ws, q, table, items + [item])
         == PartsOf(ws, q, table, items) + [PartOf(ws, q, HeldAt(table, items + [item], |items|), item.path)]
  {
    var parts, longer := PartsOf(ws, q, table, items), PartsOf(ws, q, table, items + [item]);
    forall i | 0 <= i < |items| ensures longer[i] == parts[i] {
      assert (items + [item])[..i] == items[..i];
    }
  }

  lemma ScanNext(ws: Workspace, q: Query, table: Option<map<string, seq<Row>>>, items: seq<PathItem>, item: PathItem)
    ensures Scan(ws, q, table, items + [item])
            == AddPart(Scan(ws, q, table, items), PartOf(ws, q, HeldAt(table, items + [item], |items|), item.path))
    ensures table.None? ==> HeldAt(table, items + [item], |items|) == None
  {
    PartsNext(ws, q, table, items, item);
    RunNext(PartsOf(ws, q, table, items), PartOf(ws, q, HeldAt(table, items + [item], |items|), item.path));
  }

  ghost predicate Extends(before: Trace, after: Trace) {
    && |before.rows| <= |after.rows| && after.rows[..|before.rows|] == before.rows
    && (before.refused ==> after == before)
  }

  /** Going on only adds rows at the end, and nothing once a read was refused. */
  lemma {:induction false} RunExtends(parts: seq<Part>, more: seq<Part>)
    ensures Extends(Run(parts), Run(parts + more))
  {
    if more == [] {
      assert parts + more == parts;
    } else {
      var shorter := more[..|more| - 1];
      RunExtends(parts, shorter);
      assert (parts + more)[..|parts + more| - 1] == parts + shorter;
    }
  }

  lemma ScanExtends(ws: Workspace, q: Query, table: Option<map<string, seq<Row>>>, items: seq<PathItem>,
                    more: seq<PathItem>)
    ensures Extends(Scan(ws, q, table, items), Scan(ws, q, table, items + more))
  {
    var parts, longer := PartsOf(ws, q, table, items), PartsOf(ws, q, table, items + more);
    forall i | 0 <= i < |items| ensures longer[i] == parts[i] {
      assert (items + more)[..i] == items[..i];
    }
    assert longer == parts + longer[|parts|..];
    RunExtends(parts, longer[|parts|..]);
  }

  /** Cutting a scan to the result limit; `cut` says that the listing itself was incomplete. */
  function Answer(trace: Trace, limit: nat, cut: bool): Response {
    Response(Take(trace.rows, limit), |trace.rows| >= limit || trace.refused || cut)
  }

  /** The end of a scan that lists while it reads: a listing error counts only if it is reached. */
  function Outcome(trace: Trace, limit: nat, walk: Walked, cut: bool): Result {
    if walk.failed && |trace.rows| < limit && !trace.refused then Failure
    else Success(Answer(trace, limit, walk.cut || cut))
  }

  /** What every request must return, index or not. */
  ghost function Reference(ws: Workspace, q: Query, limit: nat): Result {
    Outcome(Scan(ws, q, None, WalkFromRoot(ws).items), limit, WalkFromRoot(ws), false)
  }

  /** `_ResultCollector`. */
  class ResultCollector {
    const limit: nat
    var results: seq<Row>
    var truncated: bool

    constructor (limit: nat)
      ensures this.limit == limit && results == [] && !truncated
      ensures limit > 0 ==> Valid()
    {
      this.limit, results, truncated := limit, [], false;
    }

    ghost predicate Valid() reads this {
      |results| <= limit && (truncated <==> |results| == limit)
    }

    method Add(row: Row) returns (more: bool)
      modifies this
      ensures results == if |old(results)| < limit then old(results) + [row] else old(results)
      ensures more == (|results| < limit) && truncated == (old(truncated) || !more)
    {
      if |results| >= limit {
        truncated := true;
        return false;
      }
      results := results + [row];
      if |results| >= limit {
        truncated := true;
        return false;
      }
      return true;
    }
  }

  /** Collecting `rows` one by one stops as soon as the limit is reached. */
  ghost predicate Collected(before: seq<Row>, rows: seq<Row>, limit: nat, results: seq<Row>, truncated: bool) {
    results == Take(before + rows, limit) && (truncated <==> |before + rows| >= limit)
  }

  /** One of the rows that there are to collect is added below the limit. */
  lemma RowCollected(start: seq<Row>, rows: seq<Row>, before: seq<Row>, row: Row, rest: seq<Row>, limit: nat)
    requires before + ([row] + rest) == start + rows && |before| < limit
    ensures before + [row] + rest == start + rows
    ensures |before + [row]| >= limit ==> Collected(start, rows, limit, before + [row], true)
  {
    ConcatAssociates(before, [row], rest);
  }

  lemma AllCollected(start: seq<Row>, rows: seq<Row>, results: seq<Row>, rest: seq<Row>, limit: nat)
    requires results + rest == start + rows && rest == [] && |results| < limit
    ensures Collected(start, rows, limit, results, false)
  {
    assert results + [] == results;
  }

  lemma TextRowsStep(m: Matcher, path: string, lines: seq<string>, i: nat)
    requires i < |lines|
    ensures TextRows(m, path, lines, i)
         == match Match(m, lines[i])
            case None => TextRows(m, path, lines, i + 1)
            case Some(start) => [TextRow(path, i + 1, start + 1)] + TextRows(m, path, lines, i + 1)
  {
  }

  method AddTextRows(m: Matcher, path: string, lines: seq<string>, collector: ResultCollector)
    requires collector.Valid() && !collector.truncated
    modifies collector
    ensures collector.Valid()
    ensures Collected(old(collector.results), TextRows(m, path, lines, 0), collector.limit, collector.results,
                      collector.truncated)
  {
    ghost var start, rows := collector.results, TextRows(m, path, lines, 0);
    var i := 0;
    while i < |lines|
      invariant i <= |lines| && collector.Valid() && !collector.truncated
      invariant collector.results + TextRows(m, path, lines, i) == start + rows
    {
      var found := Match(m, lines[i]);
      TextRowsStep(m, path, lines, i);
      if found.Some? {
        var row := TextRow(path, i + 1, found.value + 1);
        RowCollected(start, rows, collector.results, row, TextRows(m, path, lines, i + 1), collector.limit);
        var more := collector.Add(row);
        if !more {
          return;
        }
      }
      i := i + 1;
    }
    AllCollected(start, rows, collector.results, TextRows(m, path, lines, i), collector.limit);
  }

  lemma KeptRowsStep(q: Query, symbols: seq<Symbol>, i: nat)
    requires i < |symbols|
    ensures KeptRows(q, symbols[i..])
         == if WantsSymbol(q, symbols[i].name)
            then [SymbolRow(symbols[i], BackendOf(q))] + KeptRows(q, symbols[i + 1..])
            else KeptRows(q, symbols[i + 1..])
  {
    assert symbols[i..][0] == symbols[i] && symbols[i..][1..] == symbols[i + 1..];
  }

  method AddSymbolRows(q: Query, symbols: seq<Symbol>, collector: ResultCollector)
    requires collector.Valid() && !collector.truncated
    modifies collector
    ensures collector.Valid()
    ensures Collected(old(collector.results), KeptRows(q, symbols), collector.limit, collector.results,
                      collector.truncated)
  {
    ghost var start, rows := collector.results, KeptRows(q, symbols);
    assert symbols[0..] == symbols;
    var i := 0;
    while i < |symbols|
      invariant i <= |symbols| && collector.Valid() && !collector.truncated
      invariant collector.results + KeptRows(q, symbols[i..]) == start + rows
    {
      KeptRowsStep(q, symbols, i);
      if WantsSymbol(q, symbols[i].name) {
        var row := SymbolRow(symbols[i], BackendOf(q));
        RowCollected(start, rows, collector.results, row, KeptRows(q, symbols[i + 1..]), collector.limit);
        var more := collector.Add(row);
        if !more {
          return;
        }
      }
      i := i + 1;
    }
    AllCollected(start, rows, collector.results, KeptRows(q, symbols[i..]), collector.limit);
  }

  method AddRows(rows: seq<Row>, collector: ResultCollector)
    requires collector.Valid() && !collector.truncated
    modifies collector
    ensures collector.Valid()
    ensures Collected(old(collector.results), rows, collector.limit, collector.results, collector.truncated)
  {
    var i := 0;
    while i < |rows|
      invariant i <= |rows| && collector.Valid() && !collector.truncated
      invariant collector.results + rows[i..] == old(collector.results) + rows
    {
      var more := collector.Add(rows[i]);
      if !more {
        return;
      }
      i := i + 1;
    }
  }

  /** `_WorkspaceFiles.read_text`, for a path already sanitised again. */
  method ReadText(ws: Workspace, path: string, budget: TraversalBudget) returns (content: Option<seq<string>>)
    requires budget.Valid() && !budget.truncated
    modifies budget`readFiles, budget`truncated
    ensures budget.Valid()
    ensures budget.truncated <==> Readable(ws, path) && old(budget.ReadsLeft()) == 0
    ensures budget.ReadsLeft() ==
              if Readable(ws, path) && !budget.truncated then old(budget.ReadsLeft()) - 1 else old(budget.ReadsLeft())
    ensures content == if Readable(ws, path) && !budget.truncated then Content(ws, path) else None
  {
    if path == "" || ws.binaryPath(path) {
      return None;
    }
    var ok := budget.ConsumeRead();
    if !ok {
      return None;
    }
    var reply := ws.read(path);
    if reply.None? || ws.binaryContent(reply.value) {
      return None;
    }
    return reply;
  }

  /** `_symbol_results_for_file`. */
  method SymbolResultsForFile(ws: Workspace, path: string, lines: seq<string>) returns (symbols: seq<Symbol>)
    ensures symbols == FileSymbols(ws, path, lines)
  {
    var classify := ws.classifier(path);
    if classify.None? {
      return [];
    }
    symbols := RegexSymbols(path, lines, classify.value);
  }

  /**
   Where a scan stands after some items. While it runs it has collected exactly their rows; once the
   limit or the read budget stopped it, the collected rows are final.
   */
  ghost predicate Progress(trace: Trace, results: seq<Row>, full: bool, refused: bool, quota: nat, limit: nat) {
    && results == Take(trace.rows, limit)
    && (full ==> |trace.rows| >= limit)
    && (refused ==> trace.refused)
    && (!full && !refused ==> |trace.rows| < limit && !trace.refused && trace.quota == quota)
  }

  lemma PartCollected(before: Trace, part: Part, start: seq<Row>, quota: nat, results: seq<Row>, full: bool, limit: nat)
    requires Progress(before, start, false, false, quota, limit)
    requires part.costsRead ==> quota > 0
    requires Collected(start, part.first + part.inside, limit, results, full)
    ensures Progress(AddPart(before, part), results, full, false, if part.costsRead then quota - 1 else quota, limit)
  {
    assert before.rows == start;
    assert before.rows + part.first + part.inside == start + (part.first + part.inside);
  }

  lemma PartRefused(before: Trace, part: Part, start: seq<Row>, results: seq<Row>, full: bool, limit: nat)
    requires Progress(before, start, false, false, 0, limit)
    requires part.costsRead && Collected(start, part.first, limit, results, full)
    ensures Progress(AddPart(before, part), results, full, true, 0, limit)
  {
    assert before.rows == start;
  }

  /** A scan that stopped early has the answer of the whole scan. */
  lemma StoppedEarly(before: Trace, after: Trace, results: seq<Row>, full: bool, refused: bool, quota: nat, limit: nat)
    requires Progress(before, results, full, refused, quota, limit) && (full || refused)
    requires Extends(before, after)
    ensures results == Take(after.rows, limit) && (|after.rows| >= limit || after.refused)
  {
  }

  /** For queries that keep symbols only, an item adds nothing but the kept symbols of its file. */
  lemma SymbolPartOnly(ws: Workspace, q: Query, path: string)
    requires q.Definition? || q.kind.SymbolOnly?
    ensures PartOf(ws, q, None, path) ==
              Part([], Readable(ws, ws.safe(path)),
                   if Readable(ws, ws.safe(path)) then SymbolPart(ws, q, ws.safe(path)) else [])
  {
  }

  /** One file of `_symbols_fallback` and `_definition_fallback`; the two differ in the rows they keep. */
  method ScanFile(ws: Workspace, q: Query, item: PathItem, budget: TraversalBudget, collector: ResultCollector,
                  ghost before: Trace)
    requires q.Definition? || q.kind.SymbolOnly?
    requires budget.Valid() && !budget.truncated && collector.Valid() && !collector.truncated
    requires Progress(before, collector.results, false, false, budget.ReadsLeft(), collector.limit)
    modifies budget`readFiles, budget`truncated, collector
    ensures budget.Valid() && collector.Valid()
    ensures Progress(AddPart(before, PartOf(ws, q, None, item.path)), collector.results, collector.truncated,
                     budget.truncated, budget.ReadsLeft(), collector.limit)
  {
    var path := ws.safe(item.path);
    SymbolPartOnly(ws, q, item.path);
    ghost var part, start, quota := PartOf(ws, q, None, item.path), collector.results, budget.ReadsLeft();
    var content := ReadText(ws, path, budget);
    if budget.truncated {
      assert start + [] == start;
      PartRefused(before, part, start, start, false, collector.limit);
      return;
    }
    if content.Some? {
      var symbols := SymbolResultsForFile(ws, path, content.value);
      assert part.first + part.inside == KeptRows(q, symbols);
      AddSymbolRows(q, symbols, collector);
    } else {
      assert part.first + part.inside == [];
      assert start + [] == start;
    }
    PartCollected(before, part, start, quota, collector.results, collector.truncated, collector.limit);
  }

  /** A scan that is stopped by the limit or the read budget has its answer, whatever is left to list. */
  lemma ScanStopped(ws: Workspace, q: Query, table: Option<map<string, seq<Row>>>, done: seq<PathItem>, rest: Walked,
                    results: seq<Row>, full: bool, refused: bool, quota: nat, limit: nat, cut: bool)
    requires Progress(Scan(ws, q, table, done), results, full, refused, quota, limit) && (full || refused)
    ensures Outcome(Scan(ws, q, table, Ahead(done, rest).items), limit, Ahead(done, rest), cut)
         == Success(Response(results, true))
  {
    ScanExtends(ws, q, table, done, rest.items);
    assert Ahead(done, rest).items == done + rest.items;
    StoppedEarly(Scan(ws, q, table, done), Scan(ws, q, table, done + rest.items), results, full, refused, quota, limit);
  }

  /** A scan that ran out of items has found everything, or a listing has failed. */
  lemma ScanRanOut(ws: Workspace, q: Query, table: Option<map<string, seq<Row>>>, done: seq<PathItem>, rest: Walked,
                   results: seq<Row>, quota: nat, limit: nat, cut: bool)
    requires Progress(Scan(ws, q, table, done), results, false, false, quota, limit) && rest.items == []
    ensures Outcome(Scan(ws, q, table, Ahead(done, rest).items), limit, Ahead(done, rest), cut)
         == if rest.failed then Failure else Success(Response(results, rest.cut || cut))
  {
    assert Ahead(done, rest).items == done;
  }

  /** `_symbols_fallback` and `_definition_fallback`: list, read and collect in one pass. */
  method ScanFiles(ws: Workspace, q: Query, limit: nat) returns (result: Result)
    requires limit > 0 && (q.Definition? || q.kind.SymbolOnly?)
    ensures result == Reference(ws, q, limit)
  {
    var budget := new TraversalBudget(MAX_VISITED_PATHS, MAX_READ_FILES);
    var collector := new ResultCollector(limit);
    var source := new PathSource.Walking(ws, budget);
    ghost var walk := WalkFromRoot(ws);
    ghost var done: seq<PathItem> := [];
    while !collector.truncated && !budget.truncated
      invariant budget.Valid() && collector.Valid()
      invariant walk == Ahead(done, source.Rest())
      invariant Progress(Scan(ws, q, None, done), collector.results, collector.truncated, budget.truncated,
                         budget.ReadsLeft(), limit)
      decreases |source.Rest().items|
    {
      var step := source.Next();
      if !step.Item? {
        ScanRanOut(ws, q, None, done, Walked([], budget.truncated, step.Failed?), collector.results,
                   budget.ReadsLeft(), limit, false);
      }
      if step.Failed? {
        return Failure;
      }
      if step.Done? {
        return Success(Response(collector.results, budget.truncated));
      }
      AheadOne(done, step.item, source.Rest());
      ScanNext(ws, q, None, done, step.item);
      ScanFile(ws, q, step.item, budget, collector, Scan(ws, q, None, done));
      done := done + [step.item];
    }
    ScanStopped(ws, q, None, done, source.Rest(), collector.results, collector.truncated, budget.truncated,
                budget.ReadsLeft(), limit, false);
    result := Success(Response(collector.results, collector.truncated || budget.truncated));
  }
}
