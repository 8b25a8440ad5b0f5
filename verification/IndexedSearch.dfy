/**
 Mixing index rows into a combined search, and when that does not show: handing rows out by path keeps their order.
 */
module IndexedSearch {
  import opened Basics
  import opened Workspace
  import opened FileScan
  import opened SymbolIndex
  import opened HandedOut

  /** The rows that belong to `path` once their paths are sanitised. */
  function GroupAt(ws: Workspace, rows: seq<Row>, path: string): seq<Row> {
    if rows == [] then []
    else
      var last := rows[|rows| - 1];
      GroupAt(ws, rows[..|rows| - 1], path) +
      if last.SymbolRow? && path != "" && ws.safe(last.symbol.path) == path then [last] else []
  }

  lemma GroupNext(ws: Workspace, rows: seq<Row>, i: nat, path: string)
    requires i < |rows| && rows[i].SymbolRow?
    ensures GroupAt(ws, rows[..i + 1], path)
         == GroupAt(ws, rows[..i], path) +
              if path != "" && ws.safe(rows[i].symbol.path) == path then [rows[i]] else []
  {
    assert rows[..i + 1][..i] == rows[..i];
  }

  /** `_symbols_by_path`. */
  method SymbolsByPath(ws: Workspace, rows: seq<Row>) returns (byPath: map<string, seq<Row>>)
    requires forall i :: 0 <= i < |rows| ==> rows[i].SymbolRow?
    ensures forall path :: Held(byPath, path) == GroupAt(ws, rows, path)
  {
    byPath := map[];
    for i := 0 to |rows|
      invariant forall path :: Held(byPath, path) == GroupAt(ws, rows[..i], path)
    {
      ghost var before := byPath;
      var path := ws.safe(rows[i].symbol.path);
      if path != "" {
        byPath := byPath[path := Held(byPath, path) + [rows[i]]];
      }
      forall other ensures Held(byPath, other) == GroupAt(ws, rows[..i + 1], other) {
        GroupNext(ws, rows, i, other);
        assert Held(before, other) == GroupAt(ws, rows[..i], other);
      }
    }
    assert rows[..|rows|] == rows;
  }

  lemma {:induction false} GroupIsRowsAt(ws: Workspace, rows: seq<Row>, path: string)
    requires forall i :: 0 <= i < |rows| ==> rows[i].SymbolRow? && CanonicalPath(ws, rows[i].symbol.path)
    ensures GroupAt(ws, rows, path) == RowsAt(rows, path)
  {
    if rows == [] {
    } else {
      var shorter, last := rows[..|rows| - 1], rows[|rows| - 1];
      GroupIsRowsAt(ws, shorter, path);
      assert rows == shorter + [last];
      RowsAtConcat(shorter, [last], path);
    }
  }

  /** The rows of an index that belong to one file. */
  function RowsAt(rows: seq<Row>, path: string): seq<Row> {
    if rows == [] then []
    else (if rows[0].SymbolRow? && rows[0].symbol.path == path then [rows[0]] else []) + RowsAt(rows[1..], path)
  }

  /** A table that holds, for each path, its share of the index rows. */
  ghost predicate Supplies(table: map<string, seq<Row>>, rows: seq<Row>) {
    forall path :: Held(table, path) == RowsAt(rows, path)
  }

  lemma RowsAtCons(first: Row, rest: seq<Row>, path: string)
    ensures RowsAt([first] + rest, path) == RowsAt([first], path) + RowsAt(rest, path)
  {
    assert ([first] + rest)[1..] == rest;
    assert [first][1..] == [];
  }

  lemma {:induction false} RowsAtConcat(a: seq<Row>, b: seq<Row>, path: string)
    ensures RowsAt(a + b, path) == RowsAt(a, path) + RowsAt(b, path)
  {
    if a == [] {
      assert a + b == b;
    } else {
      var first, rest := a[0], a[1..];
      RowsAtConcat(rest, b, path);
      RowsAtCons(first, rest, path);
      RowsAtCons(first, rest + b, path);
      assert a == [first] + rest;
      ConcatAssociates([first], rest, b);
      ConcatAssociates(RowsAt([first], path), RowsAt(rest, path), RowsAt(b, path));
    }
  }

  lemma {:induction false} RowsAtAll(rows: seq<Row>, path: string)
    requires forall i :: 0 <= i < |rows| ==> rows[i].SymbolRow? && rows[i].symbol.path == path
    ensures RowsAt(rows, path) == rows
  {
    if rows == [] {
    } else {
      RowsAtAll(rows[1..], path);
    }
  }

  lemma {:induction false} RowsAtNone(rows: seq<Row>, path: string)
    requires forall i :: 0 <= i < |rows| ==> rows[i].SymbolRow? && rows[i].symbol.path != path
    ensures RowsAt(rows, path) == []
  {
    if rows == [] {
    } else {
      RowsAtNone(rows[1..], path);
    }
  }

  /** The rows an index offers a combined search: the first `limit` that match. */
  ghost function Offered(ws: Workspace, q: Query, items: seq<PathItem>, limit: nat): seq<Row> {
    Take(KeptRows(q, Gather(ws, items).symbols), limit)
  }

  /** What a combined search finds in one file, given what the reads before it have left. */
  ghost function PieceAt(ws: Workspace, q: Query, path: string, before: Gathered): Piece<Row> {
    if before.refused then Piece(path, [], [])
    else if !Readable(ws, path) || before.quota == 0 then Piece(path, PathRows(q, path), [])
    else Piece(path, PathRows(q, path) + TextPart(ws, q, path), SymbolPart(ws, q, path))
  }

  ghost function PiecesOf(ws: Workspace, q: Query, items: seq<PathItem>): seq<Piece<Row>> {
    seq(|items|, i requires 0 <= i < |items| => PieceAt(ws, q, items[i].path, Gather(ws, items[..i])))
  }

  function OwnerOf(row: Row): Option<string> {
    if row.SymbolRow? then Some(row.symbol.path) else None
  }

  lemma {:induction false} TextRowsHaveNoOwner(m: Matcher, path: string, lines: seq<string>, from: nat)
    requires from <= |lines|
    ensures forall row :: row in TextRows(m, path, lines, from) ==> OwnerOf(row) == None
    decreases |lines| - from
  {
    if from == |lines| {
    } else {
      TextRowsHaveNoOwner(m, path, lines, from + 1);
    }
  }

  lemma PieceIsOwned(ws: Workspace, q: Query, path: string, before: Gathered)
    requires q.Search? && q.kind.AllKinds?
    ensures var piece := PieceAt(ws, q, path, before);
            && (forall row :: row in piece.text ==> OwnerOf(row) == None)
            && (forall row :: row in piece.own ==> OwnerOf(row) == Some(path))
  {
    if Content(ws, path).Some? {
      TextRowsHaveNoOwner(q.matcher, path, Content(ws, path).value, 0);
    }
    var own := NewSymbols(ws, path, before);
    KeptRowsPaths(q, own);
    assert SymbolPart(ws, q, path) == KeptRows(q, SymbolsInside(ws, path));
  }

  lemma PiecesAreWellFormed(ws: Workspace, q: Query, items: seq<PathItem>)
    requires q.Search? && q.kind.AllKinds?
    ensures WellFormed(PiecesOf(ws, q, items), OwnerOf)
  {
    var ps := PiecesOf(ws, q, items);
    forall m ensures OwnedAt(ps, OwnerOf, m) {
      if 0 <= m < |ps| {
        PieceIsOwned(ws, q, items[m].path, Gather(ws, items[..m]));
      }
    }
    forall i, j ensures Repeats(ps, i, j) {
      if 0 <= i < j < |ps| && ps[j].own != [] {
        NotRefusedBefore(ws, items, i, j);
      }
    }
  }

  lemma SymbolsAdded(ws: Workspace, q: Query, path: string, all: Gathered)
    requires q.Search? && q.kind.AllKinds?
    ensures KeptRows(q, GatherItem(ws, path, all).symbols) == KeptRows(q, all.symbols) + PieceAt(ws, q, path, all).own
  {
    var own := NewSymbols(ws, path, all);
    KeptRowsConcat(q, all.symbols, own);
    assert SymbolPart(ws, q, path) == KeptRows(q, SymbolsInside(ws, path));
  }

  lemma RowsAdded(before: Trace, part: Part, text: seq<Row>, own: seq<Row>)
    requires !before.refused && (part.costsRead ==> before.quota > 0)
    requires part.first + part.inside == text + own
    ensures AddPart(before, part)
            == Trace(before.rows + text + own, if part.costsRead then before.quota - 1 else before.quota, false)
  {
    assert before.rows + part.first + part.inside == before.rows + (part.first + part.inside);
    assert before.rows + text + own == before.rows + (text + own);
  }

  lemma RowsStopped(before: Trace, part: Part, text: seq<Row>)
    requires before.refused || (part.costsRead && before.quota == 0)
    requires text == if before.refused then [] else part.first
    ensures AddPart(before, part) == Trace(before.rows + text + [], before.quota, true)
  {
    assert before.rows + [] == before.rows && before.rows + text + [] == before.rows + text;
  }

  /** What one file adds to the rows of a scan that is given `shown` for its symbols, or reads them itself. */
  lemma PieceAdded(ws: Workspace, q: Query, path: string, all: Gathered, before: Trace, held: Option<seq<Row>>)
    requires q.Search? && q.kind.AllKinds? && CanonicalPath(ws, path)
    requires before.quota == all.quota && before.refused == all.refused
    requires held.Some? && PieceAt(ws, q, path, all).own == [] ==> held.value == []
    ensures
      var piece, after := PieceAt(ws, q, path, all), GatherItem(ws, path, all);
      AddPart(before, PartOf(ws, q, held, path))
      == Trace(before.rows + piece.text + if held.Some? then held.value else piece.own, after.quota, after.refused)
  {
    var piece, part := PieceAt(ws, q, path, all), PartOf(ws, q, held, path);
    var own := if held.Some? then held.value else piece.own;
    if before.refused || (part.costsRead && before.quota == 0) {
      RowsStopped(before, part, piece.text);
    } else {
      assert part.costsRead ==> part.first + part.inside == piece.text + own;
      RowsAdded(before, part, piece.text, own);
    }
  }

  /** The rows found and symbols gathered so far are those of the pieces. */
  ghost predicate ScannedAt(ws: Workspace, q: Query, items: seq<PathItem>, n: nat)
    requires n <= |items|
  {
    var ps, all := PiecesOf(ws, q, items), Gather(ws, items[..n]);
    && Scan(ws, q, None, items[..n]) == Trace(Plain(ps, n), all.quota, all.refused)
    && KeptRows(q, all.symbols) == Owns(ps, n)
  }

  lemma PiecesNext(ps: seq<Piece<Row>>, n: nat)
    requires n < |ps|
    ensures Plain(ps, n + 1) == Plain(ps, n) + ps[n].text + ps[n].own && Owns(ps, n + 1) == Owns(ps, n) + ps[n].own
  {
  }

  lemma PieceScanned(ws: Workspace, q: Query, path: string, all: Gathered, before: Trace, piece: Piece<Row>)
    requires q.Search? && q.kind.AllKinds? && CanonicalPath(ws, path) && piece == PieceAt(ws, q, path, all)
    requires before.quota == all.quota && before.refused == all.refused
    ensures
      var after := GatherItem(ws, path, all);
      && AddPart(before, PartOf(ws, q, None, path))
         == Trace(before.rows + piece.text + piece.own, after.quota, after.refused)
      && KeptRows(q, after.symbols) == KeptRows(q, all.symbols) + piece.own
  {
    PieceAdded(ws, q, path, all, before, None);
    SymbolsAdded(ws, q, path, all);
  }

  lemma ScannedNext(ws: Workspace, q: Query, items: seq<PathItem>, n: nat)
    requires q.Search? && q.kind.AllKinds? && n < |items| && CanonicalPath(ws, items[n].path)
    requires ScannedAt(ws, q, items, n)
    ensures ScannedAt(ws, q, items, n + 1)
  {
    var done, item := items[..n], items[n];
    assert items[..n + 1] == done + [item];
    GatherNext(ws, done, item);
    ScanNext(ws, q, None, done, item);
    var ps := PiecesOf(ws, q, items);
    PieceScanned(ws, q, item.path, Gather(ws, done), Scan(ws, q, None, done), ps[n]);
    PiecesNext(ps, n);
  }

  lemma {:induction false} PiecesAreScanned(ws: Workspace, q: Query, items: seq<PathItem>, n: nat)
    requires q.Search? && q.kind.AllKinds? && CanonicalItems(ws, items) && n <= |items|
    ensures ScannedAt(ws, q, items, n)
  {
    if n == 0 {
      assert items[..0] == [];
    } else {
      PiecesAreScanned(ws, q, items, n - 1);
      ScannedNext(ws, q, items, n - 1);
    }
  }

  ghost function TableOf(table: map<string, seq<Row>>): string -> seq<Row> {
    path => Held(table, path)
  }

  lemma BeforeIsListed(ps: seq<Piece<Row>>, items: seq<PathItem>, d: nat)
    requires d < |items| == |ps| && forall m :: 0 <= m < |ps| ==> ps[m].path == items[m].path
    ensures Before(ps, d, items[d].path) <==> items[d].path in PathSet(items[..d])
  {
    var path := items[d].path;
    if path in PathSet(items[..d]) {
      var i :| 0 <= i < d && items[..d][i].path == path;
      assert ps[i].path == path;
    }
    if Before(ps, d, path) {
      var i :| 0 <= i < d && ps[i].path == path;
      assert items[..d][i].path == path;
    }
  }

  /** What the table gives a file, which is nothing for a file without symbol rows of its own. */
  lemma GivenToItem(ws: Workspace, q: Query, table: map<string, seq<Row>>, items: seq<PathItem>, d: nat, limit: nat)
    requires q.Search? && q.kind.AllKinds? && d < |items|
    requires Hands(PiecesOf(ws, q, items), TableOf(table), limit)
    ensures
      var ps := PiecesOf(ws, q, items);
      && HeldAt(Some(table), items, d) == Some(Given(ps, TableOf(table), d))
      && (ps[d].own == [] ==> Given(ps, TableOf(table), d) == [])
  {
    var ps := PiecesOf(ws, q, items);
    BeforeIsListed(ps, items, d);
    if ps[d].own == [] {
      PiecesAreWellFormed(ws, q, items);
      NothingGiven(ps, OwnerOf, TableOf(table), d, limit);
    }
  }

  lemma SameHeld(table: map<string, seq<Row>>, items: seq<PathItem>, n: nat)
    requires 0 < n <= |items|
    ensures HeldAt(Some(table), items[..n], n - 1) == HeldAt(Some(table), items, n - 1)
  {
    assert items[..n][..n - 1] == items[..n - 1];
  }

  ghost predicate MixedAt(ws: Workspace, q: Query, table: map<string, seq<Row>>, items: seq<PathItem>, n: nat)
    requires n <= |items|
  {
    var ps, all := PiecesOf(ws, q, items), Gather(ws, items[..n]);
    Scan(ws, q, Some(table), items[..n]) == Trace(Mixed(ps, TableOf(table), n), all.quota, all.refused)
  }

  lemma MixedNext(ws: Workspace, q: Query, table: map<string, seq<Row>>, items: seq<PathItem>, limit: nat, n: nat)
    requires q.Search? && q.kind.AllKinds? && n < |items| && CanonicalPath(ws, items[n].path)
    requires Hands(PiecesOf(ws, q, items), TableOf(table), limit) && MixedAt(ws, q, table, items, n)
    ensures MixedAt(ws, q, table, items, n + 1)
  {
    var done, item := items[..n], items[n];
    assert items[..n + 1] == done + [item];
    GatherNext(ws, done, item);
    ScanNext(ws, q, Some(table), done, item);
    GivenToItem(ws, q, table, items, n, limit);
    SameHeld(table, items, n + 1);
    PieceAdded(ws, q, item.path, Gather(ws, done), Scan(ws, q, Some(table), done),
               Some(Given(PiecesOf(ws, q, items), TableOf(table), n)));
  }

  lemma {:induction false} PiecesAreMixed(ws: Workspace, q: Query, table: map<string, seq<Row>>, items: seq<PathItem>,
                                          limit: nat, n: nat)
    requires q.Search? && q.kind.AllKinds? && CanonicalItems(ws, items) && n <= |items|
    requires Hands(PiecesOf(ws, q, items), TableOf(table), limit)
    ensures MixedAt(ws, q, table, items, n)
  {
    if n == 0 {
      assert items[..0] == [];
    } else {
      PiecesAreMixed(ws, q, table, items, limit, n - 1);
      MixedNext(ws, q, table, items, limit, n - 1);
    }
  }

  lemma TakeMore(own: seq<Row>, rest: seq<Row>, limit: nat)
    ensures Take(own + rest, limit) == Take(own, limit) + Take(rest, Left(limit, |own|))
  {
  }

  lemma RowsOfPiece(ps: seq<Piece<Row>>, d: nat, path: string, limit: nat)
    requires WellFormed(ps, OwnerOf) && d < |ps|
    ensures RowsAt(Take(ps[d].own, limit), path) == if ps[d].path == path then Take(ps[d].own, limit) else []
  {
    var rows := Take(ps[d].own, limit);
    assert OwnedAt(ps, OwnerOf, d);
    forall i | 0 <= i < |rows| ensures rows[i].SymbolRow? && rows[i].symbol.path == ps[d].path {
      assert rows[i] in ps[d].own;
    }
    if ps[d].path == path {
      RowsAtAll(rows, path);
    } else {
      RowsAtNone(rows, path);
    }
  }

  /** Picking a path's rows out of the first `limit` symbol rows gives its share of them. */
  lemma {:induction false} ShareIsRowsAt(ps: seq<Piece<Row>>, d: nat, path: string, limit: nat)
    requires WellFormed(ps, OwnerOf) && d <= |ps|
    ensures RowsAt(Take(OwnsFrom(ps, d), limit), path) == Share(ps, d, path, limit)
    decreases |ps| - d
  {
    if d == |ps| {
    } else {
      var left := Left(limit, |ps[d].own|);
      ShareIsRowsAt(ps, d + 1, path, left);
      TakeMore(ps[d].own, OwnsFrom(ps, d + 1), limit);
      RowsAtConcat(Take(ps[d].own, limit), Take(OwnsFrom(ps, d + 1), left), path);
      RowsOfPiece(ps, d, path, limit);
    }
  }

  lemma RowsAreHanded(ps: seq<Piece<Row>>, table: map<string, seq<Row>>, offered: seq<Row>, limit: nat)
    requires WellFormed(ps, OwnerOf) && offered == Take(Owns(ps, |ps|), limit) && Supplies(table, offered)
    ensures Hands(ps, TableOf(table), limit)
  {
    OwnsSplits(ps, 0);
    assert [] + OwnsFrom(ps, 0) == OwnsFrom(ps, 0);
    forall path ensures HandsAt(ps, TableOf(table), limit, path) {
      ShareIsRowsAt(ps, 0, path, limit);
    }
  }

  lemma OfferedIsHanded(ws: Workspace, q: Query, table: map<string, seq<Row>>, items: seq<PathItem>, limit: nat)
    requires q.Search? && q.kind.AllKinds? && CanonicalItems(ws, items)
    requires Supplies(table, Offered(ws, q, items, limit))
    ensures Hands(PiecesOf(ws, q, items), TableOf(table), limit)
  {
    PiecesAreWellFormed(ws, q, items);
    PiecesAreScanned(ws, q, items, |items|);
    assert items[..|items|] == items;
    RowsAreHanded(PiecesOf(ws, q, items), table, Offered(ws, q, items, limit), limit);
  }

  /** How many rows the plain search has found after `n` files. */
  ghost function RowCounts(ws: Workspace, q: Query, items: seq<PathItem>): int -> nat {
    n => if 0 <= n <= |items| then |Scan(ws, q, None, items[..n]).rows| else 0
  }

  /** How many wanted symbols it has come across by then. */
  ghost function SymbolCounts(ws: Workspace, q: Query, items: seq<PathItem>): int -> nat {
    n => if 0 <= n <= |items| then |KeptRows(q, Gather(ws, items[..n]).symbols)| else 0
  }

  /**
   The file at `j`, listed before and last at `i`, has wanted symbols; fewer than `limit` were found before it, and
   fewer than `limit` rows up to its earlier occurrence; and rows other than its symbols come in between.
   */
  ghost predicate TornAt(items: seq<PathItem>, rows: int -> nat, symbols: int -> nat, i: int, j: int, limit: nat) {
    && 0 <= i < j < |items| && items[i].path == items[j].path
    && (forall m :: i < m < j ==> items[m].path != items[j].path)
    && symbols(j) < symbols(j + 1) && symbols(j) < limit && rows(i + 1) < limit
    && rows(i + 1) + (symbols(j + 1) - symbols(j)) < rows(j + 1)
  }

  /** No repeated file of a combined search is torn: the condition under which an index does not show. */
  ghost predicate NothingTorn(ws: Workspace, q: Query, items: seq<PathItem>, limit: nat) {
    forall i, j :: !TornAt(items, RowCounts(ws, q, items), SymbolCounts(ws, q, items), i, j, limit)
  }

  lemma TornAtIsTorn(ps: seq<Piece<Row>>, items: seq<PathItem>, rows: int -> nat, symbols: int -> nat, i: int, j: int,
                     limit: nat)
    requires |ps| == |items| && forall m :: 0 <= m < |ps| ==> ps[m].path == items[m].path
    requires forall n :: 0 <= n <= |ps| ==> rows(n) == |Plain(ps, n)|
    requires forall n :: 0 <= n <= |ps| ==> symbols(n) == |Owns(ps, n)|
    ensures TornAt(items, rows, symbols, i, j, limit) <==> Torn(ps, i, j, limit)
  {
    if Torn(ps, i, j, limit) {
      forall m | i < m < j ensures items[m].path != items[j].path {
        assert ps[m].path != ps[j].path;
      }
    }
  }

  lemma NothingTornIsNoneTorn(ws: Workspace, q: Query, items: seq<PathItem>, limit: nat)
    requires q.Search? && q.kind.AllKinds? && CanonicalItems(ws, items)
    ensures NothingTorn(ws, q, items, limit) <==> forall i, j :: !Torn(PiecesOf(ws, q, items), i, j, limit)
  {
    var ps, rows, symbols := PiecesOf(ws, q, items), RowCounts(ws, q, items), SymbolCounts(ws, q, items);
    forall n | 0 <= n <= |ps| ensures rows(n) == |Plain(ps, n)| && symbols(n) == |Owns(ps, n)| {
      PiecesAreScanned(ws, q, items, n);
    }
    forall i, j ensures TornAt(items, rows, symbols, i, j, limit) <==> Torn(ps, i, j, limit) {
      TornAtIsTorn(ps, items, rows, symbols, i, j, limit);
    }
  }

  /**
   With a complete index, a combined search returns what it returns without one, rows and flag, if and only if the
   listing repeats no file in such a way that its rows are torn apart.
   */
  lemma IndexedSearchAgrees(ws: Workspace, q: Query, table: map<string, seq<Row>>, items: seq<PathItem>, cut: bool,
                            limit: nat)
    requires q.Search? && q.kind.AllKinds? && CanonicalItems(ws, items) && |Gather(ws, items).symbols| <= SYMBOL_CAP
    requires Supplies(table, IndexResponse(IndexOf(ws, items, cut), q, limit).rows)
    ensures
      var offered := IndexResponse(IndexOf(ws, items, cut), q, limit);
      Answer(Scan(ws, q, Some(table), items), limit, cut || offered.truncated)
      == Answer(Scan(ws, q, None, items), limit, cut)
      <==> NothingTorn(ws, q, items, limit)
  {
    var ps, all := PiecesOf(ws, q, items), Gather(ws, items);
    assert items[..|items|] == items;
    CompleteIndex(ws, items, cut);
    OfferedIsHanded(ws, q, table, items, limit);
    PiecesAreWellFormed(ws, q, items);
    PiecesAreScanned(ws, q, items, |items|);
    PiecesAreMixed(ws, q, table, items, limit, |items|);
    RowsGrow(ps, |ps|, |ps|);
    SameAnswers(Scan(ws, q, None, items), Scan(ws, q, Some(table), items), |KeptRows(q, all.symbols)|, cut, limit);
    SameExactlyWhen(ps, OwnerOf, TableOf(table), limit);
    NothingTornIsNoneTorn(ws, q, items, limit);
  }

  /** A file that is listed twice and has text rows as well as wanted symbols, all below the limit: the order shows. */
  lemma FileListedTwiceIsTorn(ws: Workspace, q: Query, item: PathItem, limit: nat)
    requires q.Search? && q.kind.AllKinds? && CanonicalPath(ws, item.path) && Readable(ws, item.path)
    requires TextPart(ws, q, item.path) != [] && SymbolPart(ws, q, item.path) != []
    requires |PathRows(q, item.path) + TextPart(ws, q, item.path)| + |SymbolPart(ws, q, item.path)| < limit
    ensures !NothingTorn(ws, q, [item, item], limit)
  {
    var items := [item, item];
    var ps := PiecesOf(ws, q, items);
    var piece := Piece(item.path, PathRows(q, item.path) + TextPart(ws, q, item.path), SymbolPart(ws, q, item.path));
    GatherNext(ws, [], item);
    assert items[..0] == [] && items[..1] == [] + [item];
    assert ps[0] == piece && ps[1] == piece;
    TwiceIsTorn(ps, piece, limit);
    NothingTornIsNoneTorn(ws, q, items, limit);
  }

  lemma CompleteIndex(ws: Workspace, items: seq<PathItem>, cut: bool)
    requires CanonicalItems(ws, items) && |Gather(ws, items).symbols| <= SYMBOL_CAP
    ensures IndexOf(ws, items, cut) == IndexEntry(Gather(ws, items).symbols, cut || Gather(ws, items).refused)
  {
    GatheredAreIndexable(ws, items);
  }

  lemma SameAnswers(a: Trace, b: Trace, have: nat, cut: bool, limit: nat)
    requires a.refused == b.refused && have <= |a.rows|
    ensures Answer(b, limit, cut || have >= limit || cut || a.refused) == Answer(a, limit, cut)
            <==> Take(a.rows, limit) == Take(b.rows, limit)
  {
  }

  /** The table built from the index rows supplies every path. */
  lemma GroupedRowsSupply(ws: Workspace, q: Query, table: map<string, seq<Row>>, items: seq<PathItem>, cut: bool,
                          limit: nat)
    requires q.Search? && CanonicalItems(ws, items)
    requires forall path ::
      Held(table, path) == GroupAt(ws, IndexResponse(IndexOf(ws, items, cut), q, limit).rows, path)
    ensures Supplies(table, IndexResponse(IndexOf(ws, items, cut), q, limit).rows)
  {
    var entry := IndexOf(ws, items, cut);
    var rows := IndexResponse(entry, q, limit).rows;
    GatheredAreIndexable(ws, items);
    KeptRowsPaths(q, entry.symbols);
    forall i | 0 <= i < |rows| ensures rows[i].SymbolRow? && CanonicalPath(ws, rows[i].symbol.path) {
      assert rows[i] == KeptRows(q, entry.symbols)[i];
      assert rows[i].symbol in entry.symbols;
    }
    forall path ensures Held(table, path) == RowsAt(rows, path) {
      GroupIsRowsAt(ws, rows, path);
    }
  }
}
