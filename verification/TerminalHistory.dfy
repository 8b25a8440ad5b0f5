/** The stored output of remote terminals, trimmed after every chunk (`handle_terminal_output`). */
module TerminalHistory {

  /** `TERM_HISTORY_MAX_BYTES`. */
  const MAX_BYTES: nat := 1024 * 1024 * 1024

  datatype Row = Row(id: int, terminal: string, nbytes: nat)

  function Total(rows: seq<Row>): nat {
    if rows == [] then 0 else rows[0].nbytes + Total(rows[1..])
  }

  /** The rows of one terminal, oldest first. */
  function Of(rows: seq<Row>, terminal: string): seq<Row> {
    if rows == [] then []
    else
      var last := rows[|rows| - 1];
      Of(rows[..|rows| - 1], terminal) + if last.terminal == terminal then [last] else []
  }

  function Without(rows: seq<Row>, ids: set<int>): seq<Row> {
    if rows == [] then []
    else
      var last := rows[|rows| - 1];
      Without(rows[..|rows| - 1], ids) + if last.id in ids then [] else [last]
  }

  /** How many of the oldest rows have to go for the rest to fit under the cap. */
  function Excess(rows: seq<Row>): (n: nat)
    ensures n <= |rows|
  {
    if Total(rows) <= MAX_BYTES then 0 else 1 + Excess(rows[1..])
  }

  /** The longest suffix that fits, found in one go. */
  function Fit(rows: seq<Row>): seq<Row> {
    rows[Excess(rows)..]
  }

  lemma {:induction false} TotalSplit(rows: seq<Row>, k: nat)
    requires k <= |rows|
    ensures Total(rows) == Total(rows[..k]) + Total(rows[k..])
  {
    if k == 0 {
      assert rows[0..] == rows;
    } else {
      TotalSplit(rows[1..], k - 1);
      assert rows[..k][1..] == rows[1..][..k - 1];
      assert rows[k..] == rows[1..][k - 1..];
    }
  }

  /** `Fit` drops `n` rows exactly when what is left fits and keeping one row more would not. */
  lemma {:induction false} FitIsLongest(rows: seq<Row>, n: nat)
    requires n <= |rows|
    ensures n == Excess(rows) <==> Total(rows[n..]) <= MAX_BYTES && (n > 0 ==> Total(rows[n - 1..]) > MAX_BYTES)
  {
    assert rows[0..] == rows;
    if n > 0 {
      TotalSplit(rows, n - 1);
      if Total(rows) > MAX_BYTES {
        FitIsLongest(rows[1..], n - 1);
        assert rows[1..][n - 1..] == rows[n..];
        if n > 1 {
          assert rows[1..][n - 2..] == rows[n - 1..];
        }
      }
    }
  }

  /** Trimming as the rows come equals trimming the whole history once. */
  lemma {:induction false} FitOneMore(rows: seq<Row>, row: Row)
    ensures Fit(Fit(rows) + [row]) == Fit(rows + [row])
  {
    if Total(rows) > MAX_BYTES {
      FitOneMore(rows[1..], row);
      FitRest(rows);
      assert (rows + [row])[1..] == rows[1..] + [row];
      TotalSplit(rows + [row], |rows|);
      assert (rows + [row])[..|rows|] == rows;
      FitRest(rows + [row]);
    }
  }

  lemma FitRest(rows: seq<Row>)
    requires Total(rows) > MAX_BYTES
    ensures Fit(rows) == Fit(rows[1..])
  {
    assert rows[1..][Excess(rows[1..])..] == rows[1 + Excess(rows[1..])..];
  }

  ghost predicate Ordered(rows: seq<Row>) {
    forall i, j :: 0 <= i < j < |rows| ==> rows[i].id < rows[j].id
  }

  ghost predicate Below(rows: seq<Row>, id: int) {
    forall i :: 0 <= i < |rows| ==> rows[i].id < id
  }

  lemma {:induction false} WithoutKeepsOrder(rows: seq<Row>, ids: set<int>, bound: int)
    requires Ordered(rows) && Below(rows, bound)
    ensures Ordered(Without(rows, ids)) && Below(Without(rows, ids), bound)
  {
    if rows == [] {
    } else {
      var last := rows[|rows| - 1];
      WithoutKeepsOrder(rows[..|rows| - 1], ids, last.id);
    }
  }

  lemma {:induction false} OfKeepsOrder(rows: seq<Row>, terminal: string, bound: int)
    requires Ordered(rows) && Below(rows, bound)
    ensures Ordered(Of(rows, terminal)) && Below(Of(rows, terminal), bound)
  {
    if rows == [] {
    } else {
      var last := rows[|rows| - 1];
      OfKeepsOrder(rows[..|rows| - 1], terminal, last.id);
    }
  }

  lemma {:induction false} OfWithout(rows: seq<Row>, terminal: string, ids: set<int>)
    ensures Of(Without(rows, ids), terminal) == Without(Of(rows, terminal), ids)
  {
    if rows == [] {
    } else {
      var shorter, last := rows[..|rows| - 1], rows[|rows| - 1];
      OfWithout(shorter, terminal, ids);
      assert (Without(shorter, ids) + [last])[..|Without(shorter, ids)|] == Without(shorter, ids);
      assert (Of(shorter, terminal) + [last])[..|Of(shorter, terminal)|] == Of(shorter, terminal);
      assert Without(shorter, ids) + [] == Without(shorter, ids);
      assert Of(shorter, terminal) + [] == Of(shorter, terminal);
    }
  }

  lemma {:induction false} WithoutNone(rows: seq<Row>, ids: set<int>)
    requires forall i :: 0 <= i < |rows| ==> rows[i].id !in ids
    ensures Without(rows, ids) == rows
  {
    if rows == [] {
    } else {
      WithoutNone(rows[..|rows| - 1], ids);
      assert rows == rows[..|rows| - 1] + [rows[|rows| - 1]];
    }
  }

  /** The identifiers of the first `k` rows. */
  function FirstIds(rows: seq<Row>, k: nat): set<int>
    requires k <= |rows|
  {
    set i | 0 <= i < k :: rows[i].id
  }

  lemma FirstIdsOfShorter(rows: seq<Row>, k: nat)
    requires k < |rows|
    ensures FirstIds(rows[..|rows| - 1], k) == FirstIds(rows, k)
  {
    var shorter := rows[..|rows| - 1];
    assert forall i :: 0 <= i < k ==> shorter[i].id == rows[i].id;
  }

  lemma LastIsLater(rows: seq<Row>, k: nat)
    requires k < |rows| && Ordered(rows)
    ensures rows[|rows| - 1].id !in FirstIds(rows, k) && Ordered(rows[..|rows| - 1])
  {
  }

  lemma {:induction false} WithoutFirst(rows: seq<Row>, k: nat)
    requires k <= |rows| && Ordered(rows)
    ensures Without(rows, FirstIds(rows, k)) == rows[k..]
  {
    var ids := FirstIds(rows, k);
    if k == |rows| {
      WithoutAll(rows, ids);
    } else {
      var shorter := rows[..|rows| - 1];
      FirstIdsOfShorter(rows, k);
      LastIsLater(rows, k);
      WithoutFirst(shorter, k);
      assert rows[k..] == shorter[k..] + [rows[|rows| - 1]];
    }
  }

  lemma {:induction false} WithoutAll(rows: seq<Row>, ids: set<int>)
    requires forall i :: 0 <= i < |rows| ==> rows[i].id in ids
    ensures Without(rows, ids) == []
  {
    if rows == [] {
    } else {
      WithoutAll(rows[..|rows| - 1], ids);
    }
  }

  lemma {:induction false} OfAreOwn(rows: seq<Row>, terminal: string)
    ensures forall i :: 0 <= i < |Of(rows, terminal)| ==>
      Of(rows, terminal)[i] in rows && Of(rows, terminal)[i].terminal == terminal
  {
    if rows == [] {
    } else {
      OfAreOwn(rows[..|rows| - 1], terminal);
    }
  }

  lemma SameRow(rows: seq<Row>, a: Row, b: Row)
    requires Ordered(rows) && a in rows && b in rows
    ensures a.id == b.id ==> a == b
  {
  }

  /** Deleting rows of one terminal leaves every other terminal alone. */
  lemma OthersStay(rows: seq<Row>, terminal: string, other: string, k: nat)
    requires Ordered(rows) && other != terminal && k <= |Of(rows, terminal)|
    ensures Of(Without(rows, FirstIds(Of(rows, terminal), k)), other) == Of(rows, other)
  {
    var ids, own, others := FirstIds(Of(rows, terminal), k), Of(rows, terminal), Of(rows, other);
    OfAreOwn(rows, terminal);
    OfAreOwn(rows, other);
    forall i | 0 <= i < |others|
      ensures others[i].id !in ids
    {
      forall j | 0 <= j < k
        ensures own[j].id != others[i].id
      {
        SameRow(rows, own[j], others[i]);
      }
    }
    OfWithout(rows, other, ids);
    WithoutNone(others, ids);
  }

  /** The trimming loop: collect the oldest rows until enough is freed. */
  method Oldest(own: seq<Row>, need: nat) returns (ids: set<int>)
    requires Ordered(own) && Total(own) == MAX_BYTES + need && need > 0
    ensures ids == FirstIds(own, Excess(own))
  {
    ids := {};
    var freed, k := 0, 0;
    while k < |own|
      invariant k <= |own| && ids == FirstIds(own, k)
      invariant freed == Total(own[..k]) < need
      invariant k > 0 ==> Total(own[..k - 1]) < need
    {
      TotalSplit(own, k);
      TotalSplit(own, k + 1);
      assert own[k..][1..] == own[k + 1..];
      ids := ids + {own[k].id};
      freed := freed + own[k].nbytes;
      k := k + 1;
      if freed >= need {
        break;
      }
    }
    assert own[..|own|] == own;
    TotalSplit(own, k);
    if k > 0 {
      TotalSplit(own, k - 1);
    }
    FitIsLongest(own, k);
  }

  lemma AddedRow(rows: seq<Row>, row: Row)
    ensures Of(rows + [row], row.terminal) == Of(rows, row.terminal) + [row]
    ensures forall other: string :: other != row.terminal ==> Of(rows + [row], other) == Of(rows, other)
  {
    assert (rows + [row])[..|rows|] == rows;
  }

  /** What one trimming leaves. */
  function Trimmed(rows: seq<Row>, terminal: string): seq<Row> {
    Without(rows, FirstIds(Of(rows, terminal), Excess(Of(rows, terminal))))
  }

  lemma TrimmedKeepsOrder(rows: seq<Row>, terminal: string, bound: int)
    requires Ordered(rows) && Below(rows, bound)
    ensures Ordered(Trimmed(rows, terminal)) && Below(Trimmed(rows, terminal), bound)
  {
    WithoutKeepsOrder(rows, FirstIds(Of(rows, terminal), Excess(Of(rows, terminal))), bound);
  }

  /** Trimming one terminal makes its rows fit and touches no other. */
  lemma TrimmedFits(rows: seq<Row>, terminal: string, other: string, bound: int)
    requires Ordered(rows) && Below(rows, bound)
    ensures Of(Trimmed(rows, terminal), other) == if other == terminal then Fit(Of(rows, terminal)) else Of(rows, other)
  {
    var own := Of(rows, terminal);
    if other == terminal {
      OfKeepsOrder(rows, terminal, bound);
      OfWithout(rows, terminal, FirstIds(own, Excess(own)));
      WithoutFirst(own, Excess(own));
    } else {
      OthersStay(rows, terminal, other, Excess(own));
    }
  }

  /** The stored rows of every terminal are the longest suffix of its whole output that fits. */
  ghost predicate LongestSuffixes(rows: seq<Row>, log: seq<Row>) {
    forall terminal: string :: Of(rows, terminal) == Fit(Of(log, terminal))
  }

  lemma AddAndTrimOne(rows: seq<Row>, log: seq<Row>, row: Row, terminal: string)
    requires Ordered(rows + [row]) && Below(rows + [row], row.id + 1)
    requires Of(rows, terminal) == Fit(Of(log, terminal))
    ensures Of(Trimmed(rows + [row], row.terminal), terminal) == Fit(Of(log + [row], terminal))
  {
    AddedRow(rows, row);
    AddedRow(log, row);
    TrimmedFits(rows + [row], row.terminal, terminal, row.id + 1);
    FitOneMore(Of(log, terminal), row);
  }

  lemma AddedKeepsOrder(rows: seq<Row>, row: Row)
    requires Ordered(rows) && Below(rows, row.id)
    ensures Ordered(rows + [row]) && Below(rows + [row], row.id + 1)
  {
  }

  lemma AddAndTrim(rows: seq<Row>, log: seq<Row>, row: Row)
    requires Ordered(rows) && Below(rows, row.id) && LongestSuffixes(rows, log)
    ensures LongestSuffixes(Trimmed(rows + [row], row.terminal), log + [row])
  {
    AddedKeepsOrder(rows, row);
    forall terminal: string
      ensures Of(Trimmed(rows + [row], row.terminal), terminal) == Fit(Of(log + [row], terminal))
    {
      assert Of(rows, terminal) == Fit(Of(log, terminal));
      AddAndTrimOne(rows, log, row, terminal);
    }
  }

  class History {
    var rows: seq<Row>
    /** Every row that was ever added. */
    ghost var log: seq<Row>

    ghost predicate Valid()
      reads this
    {
      Ordered(rows) && LongestSuffixes(rows, log)
    }

    constructor ()
      ensures Valid() && log == []
    {
      rows, log := [], [];
    }

    /**
     The persisting part of `handle_terminal_output`: the chunk of `nbytes` bytes gets the row
     identifier `id`; `known` says whether the terminal session exists.
     */
    method HandleOutput(terminal: string, nbytes: nat, known: bool, id: int)
      requires Valid() && Below(rows, id)
      modifies this
      ensures Valid() && Below(rows, id + 1)
      ensures log == old(log) + if nbytes > 0 && known then [Row(id, terminal, nbytes)] else []
      ensures forall other: string :: other != terminal ==> Of(rows, other) == Of(old(rows), other)
    {
      if nbytes == 0 || !known {
        return;
      }
      ghost var row := Row(id, terminal, nbytes);
      AddedRow(rows, row);
      AddAndTrim(rows, log, row);
      rows := rows + [Row(id, terminal, nbytes)];
      log := log + [row];
      TrimmedKeepsOrder(rows, terminal, id + 1);
      forall other: string | other != terminal
        ensures Of(Trimmed(rows, terminal), other) == Of(old(rows), other)
      {
        TrimmedFits(rows, terminal, other, id + 1);
      }
      var own := Of(rows, terminal);
      OfKeepsOrder(rows, terminal, id + 1);
      var total := Total(own);
      if total > MAX_BYTES {
        var ids := Oldest(own, total - MAX_BYTES);
        rows := Without(rows, ids);
      } else {
        WithoutNone(rows, FirstIds(own, 0));
      }
    }
  }
}
