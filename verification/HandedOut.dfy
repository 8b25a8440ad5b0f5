/**
 A search in which an index answers for the symbols. The plain search lists, file by file, the text rows and the
 file's own symbol rows. The other one takes the first `limit` symbol rows of the whole search beforehand and hands
 them out by path, all rows of a path where that path comes first. A path may occur more than once.
 */
module HandedOut {
  import opened Basics

  /** What one listed file contributes. */
  datatype Piece<R> = Piece(path: string, text: seq<R>, own: seq<R>)

  ghost function Plain<R>(ps: seq<Piece<R>>, n: nat): seq<R>
    requires n <= |ps|
  {
    if n == 0 then [] else Plain(ps, n - 1) + ps[n - 1].text + ps[n - 1].own
  }

  ghost function Owns<R>(ps: seq<Piece<R>>, n: nat): seq<R>
    requires n <= |ps|
  {
    if n == 0 then [] else Owns(ps, n - 1) + ps[n - 1].own
  }

  ghost predicate Before<R>(ps: seq<Piece<R>>, n: nat, path: string)
    requires n <= |ps|
  {
    exists m :: 0 <= m < n && ps[m].path == path
  }

  ghost function Given<R>(ps: seq<Piece<R>>, table: string -> seq<R>, d: nat): seq<R>
    requires d < |ps|
  {
    if Before(ps, d, ps[d].path) then [] else table(ps[d].path)
  }

  ghost function Mixed<R>(ps: seq<Piece<R>>, table: string -> seq<R>, n: nat): seq<R>
    requires n <= |ps|
  {
    if n == 0 then [] else Mixed(ps, table, n - 1) + ps[n - 1].text + Given(ps, table, n - 1)
  }

  ghost function PlainFrom<R>(ps: seq<Piece<R>>, d: nat): seq<R>
    requires d <= |ps|
    decreases |ps| - d
  {
    if d == |ps| then [] else ps[d].text + ps[d].own + PlainFrom(ps, d + 1)
  }

  ghost function MixedFrom<R>(ps: seq<Piece<R>>, table: string -> seq<R>, d: nat): seq<R>
    requires d <= |ps|
    decreases |ps| - d
  {
    if d == |ps| then [] else ps[d].text + Given(ps, table, d) + MixedFrom(ps, table, d + 1)
  }

  ghost function OwnsFrom<R>(ps: seq<Piece<R>>, d: nat): seq<R>
    requires d <= |ps|
    decreases |ps| - d
  {
    if d == |ps| then [] else ps[d].own + OwnsFrom(ps, d + 1)
  }

  /** The rows of `path` among the next `limit` symbol rows. */
  ghost function Share<R>(ps: seq<Piece<R>>, d: nat, path: string, limit: nat): seq<R>
    requires d <= |ps|
    decreases |ps| - d
  {
    if d == |ps| then []
    else
      (if ps[d].path == path then Take(ps[d].own, limit) else [])
      + Share(ps, d + 1, path, Left(limit, |ps[d].own|))
  }

  function Left(limit: nat, used: nat): nat {
    if used < limit then limit - used else 0
  }

  /** The rows of `path` still to come among the first `limit` symbol rows. */
  ghost function ToCome<R>(ps: seq<Piece<R>>, d: nat, path: string, limit: nat): seq<R>
    requires d <= |ps|
  {
    Share(ps, d, path, Left(limit, |Owns(ps, d)|))
  }

  lemma Regroup<R>(before: seq<R>, a: seq<R>, b: seq<R>, rest: seq<R>, longer: seq<R>, from: seq<R>)
    requires longer == before + a + b && from == a + b + rest
    ensures before + from == longer + rest
  {
  }

  /** The table holds, for each path, its rows among the first `limit` symbol rows. */
  ghost predicate Hands<R>(ps: seq<Piece<R>>, table: string -> seq<R>, limit: nat) {
    forall path :: HandsAt(ps, table, limit, path)
  }

  ghost predicate HandsAt<R>(ps: seq<Piece<R>>, table: string -> seq<R>, limit: nat, path: string) {
    table(path) == Share(ps, 0, path, limit)
  }

  lemma RowsUnfold<R>(ps: seq<Piece<R>>, table: string -> seq<R>, d: nat)
    requires d < |ps|
    ensures PlainFrom(ps, d) == ps[d].text + ps[d].own + PlainFrom(ps, d + 1)
    ensures MixedFrom(ps, table, d) == ps[d].text + Given(ps, table, d) + MixedFrom(ps, table, d + 1)
    ensures |Plain(ps, d + 1)| == |Plain(ps, d)| + |ps[d].text + ps[d].own|
  {
  }

  lemma {:induction false} PlainSplits<R>(ps: seq<Piece<R>>, d: nat)
    requires d <= |ps|
    ensures Plain(ps, d) + PlainFrom(ps, d) == Plain(ps, |ps|)
    decreases |ps| - d
  {
    if d == |ps| {
    } else {
      PlainSplits(ps, d + 1);
      Regroup(Plain(ps, d), ps[d].text, ps[d].own, PlainFrom(ps, d + 1), Plain(ps, d + 1), PlainFrom(ps, d));
    }
  }

  lemma {:induction false} MixedSplits<R>(ps: seq<Piece<R>>, table: string -> seq<R>, d: nat)
    requires d <= |ps|
    ensures Mixed(ps, table, d) + MixedFrom(ps, table, d) == Mixed(ps, table, |ps|)
    decreases |ps| - d
  {
    if d == |ps| {
    } else {
      MixedSplits(ps, table, d + 1);
      RowsUnfold(ps, table, d);
      Regroup(Mixed(ps, table, d), ps[d].text, Given(ps, table, d), MixedFrom(ps, table, d + 1),
              Mixed(ps, table, d + 1), MixedFrom(ps, table, d));
    }
  }

  lemma {:induction false} OwnsSplits<R>(ps: seq<Piece<R>>, d: nat)
    requires d <= |ps|
    ensures Owns(ps, d) + OwnsFrom(ps, d) == Owns(ps, |ps|)
    decreases |ps| - d
  {
    if d == |ps| {
    } else {
      OwnsSplits(ps, d + 1);
      ConcatAssociates(Owns(ps, d), ps[d].own, OwnsFrom(ps, d + 1));
    }
  }

  ghost predicate OwnedAt<R>(ps: seq<Piece<R>>, owner: R -> Option<string>, m: int) {
    0 <= m < |ps| ==>
      (forall row :: row in ps[m].text ==> owner(row) == None)
      && (forall row :: row in ps[m].own ==> owner(row) == Some(ps[m].path))
  }

  ghost predicate Repeats<R>(ps: seq<Piece<R>>, i: int, j: int) {
    0 <= i < j < |ps| && ps[i].path == ps[j].path && ps[j].own != [] ==> ps[i].own == ps[j].own
  }

  /**
   Symbol rows name their path and text rows do not, and a file that is read again has the same symbol rows
   as before.
   */
  ghost predicate WellFormed<R>(ps: seq<Piece<R>>, owner: R -> Option<string>) {
    (forall m :: OwnedAt(ps, owner, m)) && (forall i, j :: Repeats(ps, i, j))
  }

  /**
   The file at `j` has symbol rows and was listed before, last at `i`; below the limit, both in symbol rows and in
   rows of any kind, other rows come between.
   */
  ghost predicate Torn<R>(ps: seq<Piece<R>>, i: int, j: int, limit: nat) {
    && 0 <= i < j < |ps| && ps[i].path == ps[j].path && ps[j].own != []
    && (forall m :: i < m < j ==> ps[m].path != ps[j].path)
    && |Owns(ps, j)| < limit && |Plain(ps, i + 1)| < limit
    && |Plain(ps, i + 1)| < |Plain(ps, j)| + |ps[j].text|
  }

  ghost predicate NoneTorn<R>(ps: seq<Piece<R>>, d: nat, limit: nat) {
    forall i, j :: d <= j ==> !Torn(ps, i, j, limit)
  }

  lemma {:induction false} RowsGrow<R>(ps: seq<Piece<R>>, m: nat, n: nat)
    requires m <= n <= |ps|
    ensures |Plain(ps, m)| <= |Plain(ps, n)| && |Owns(ps, m)| <= |Owns(ps, n)| <= |Plain(ps, n)|
  {
    if n == 0 {
    } else if m < n {
      RowsGrow(ps, m, n - 1);
    } else {
      RowsGrow(ps, n - 1, n - 1);
    }
  }

  /**
   Something of `path` is left among the next symbol rows exactly if a further occurrence has symbol rows below the
   limit.
   */
  lemma {:induction false} ShareEmpty<R>(ps: seq<Piece<R>>, d: nat, path: string, limit: nat)
    requires d <= |ps|
    ensures ToCome(ps, d, path, limit) == [] <==>
            forall j :: d <= j < |ps| && ps[j].path == path && ps[j].own != [] ==> |Owns(ps, j)| >= limit
    decreases |ps| - d
  {
    if d == |ps| {
    } else {
      ShareEmpty(ps, d + 1, path, limit);
      assert Left(Left(limit, |Owns(ps, d)|), |ps[d].own|) == Left(limit, |Owns(ps, d + 1)|);
    }
  }

  lemma ShareStep<R>(ps: seq<Piece<R>>, d: nat, path: string, limit: nat)
    requires d < |ps|
    ensures ToCome(ps, d, path, limit)
            == (if ps[d].path == path then Take(ps[d].own, Left(limit, |Owns(ps, d)|)) else [])
               + ToCome(ps, d + 1, path, limit)
  {
    assert Left(Left(limit, |Owns(ps, d)|), |ps[d].own|) == Left(limit, |Owns(ps, d + 1)|);
  }

  lemma ShareSkip<R>(ps: seq<Piece<R>>, d: nat, path: string, limit: nat)
    requires d < |ps| && ps[d].path != path
    ensures ToCome(ps, d, path, limit) == ToCome(ps, d + 1, path, limit)
  {
    ShareStep(ps, d, path, limit);
  }

  /**
   Where the two searches stand after `d` files: they have shown the same, except that the second one has shown
   `ahead` as well, the rows left of a path whose last occurrence, at `i`, brought the last rows so far.
   */
  ghost predicate InStep<R>(ps: seq<Piece<R>>, d: nat, limit: nat, i: int, ahead: seq<R>)
    requires d <= |ps|
  {
    && (ahead != [] ==> IsLast(ps, d, i) && |Plain(ps, i + 1)| == |Plain(ps, d)|)
    && (forall path :: StandsAt(ps, d, limit, i, ahead, path))
  }

  ghost predicate StandsAt<R>(ps: seq<Piece<R>>, d: nat, limit: nat, i: int, ahead: seq<R>, path: string)
    requires d <= |ps| && (ahead != [] ==> 0 <= i < d)
  {
    Before(ps, d, path) ==> ToCome(ps, d, path, limit) == if ahead != [] && path == ps[i].path then ahead else []
  }

  /** No later file before `d` has the path of the one at `i`. */
  ghost predicate IsLast<R>(ps: seq<Piece<R>>, d: nat, i: int)
    requires d <= |ps|
  {
    0 <= i < d && forall m :: i < m < d ==> ps[m].path != ps[i].path
  }

  lemma AheadComes<R>(ps: seq<Piece<R>>, d: nat, limit: nat, i: int, ahead: seq<R>)
    requires d <= |ps| && InStep(ps, d, limit, i, ahead) && ahead != []
    ensures Before(ps, d, ps[i].path) && ToCome(ps, d, ps[i].path, limit) == ahead
  {
    assert Before(ps, d, ps[i].path) && StandsAt(ps, d, limit, i, ahead, ps[i].path);
  }

  ghost predicate SameFrom<R>(ps: seq<Piece<R>>, table: string -> seq<R>, d: nat, limit: nat, ahead: seq<R>)
    requires d <= |ps|
  {
    var n := Left(limit, |Plain(ps, d)|);
    Take(PlainFrom(ps, d), n) == Take(ahead + MixedFrom(ps, table, d), n)
  }

  /** A later occurrence that is torn from an earlier one is torn from what was shown last. */
  lemma TornFromLast<R>(ps: seq<Piece<R>>, d: nat, limit: nat, i: int, ahead: seq<R>, from: int, j: int)
    requires d <= |ps| && InStep(ps, d, limit, i, ahead) && Torn(ps, from, j, limit) && from < d <= j
    ensures ahead != [] && from == i
  {
    ShareEmpty(ps, d, ps[j].path, limit);
    assert Before(ps, d, ps[from].path) && StandsAt(ps, d, limit, i, ahead, ps[from].path);
  }

  lemma FullNoneTorn<R>(ps: seq<Piece<R>>, d: nat, limit: nat, i: int, ahead: seq<R>)
    requires d <= |ps| && InStep(ps, d, limit, i, ahead) && |Plain(ps, d)| >= limit
    ensures NoneTorn(ps, d, limit)
  {
    forall from, j | d <= j ensures !Torn(ps, from, j, limit) {
      if Torn(ps, from, j, limit) {
        if from < d {
          TornFromLast(ps, d, limit, i, ahead, from, j);
        } else {
          RowsGrow(ps, d, from + 1);
        }
      }
    }
  }

  lemma NotTornHere<R>(ps: seq<Piece<R>>, d: nat, limit: nat, i: int, ahead: seq<R>)
    requires d < |ps| && InStep(ps, d, limit, i, ahead)
    requires ahead == [] || ps[d].text == [] || ps[d].path != ps[i].path
    ensures NoneTorn(ps, d, limit) <==> NoneTorn(ps, d + 1, limit)
  {
    forall from ensures !Torn(ps, from, d, limit) {
      if Torn(ps, from, d, limit) {
        TornFromLast(ps, d, limit, i, ahead, from, d);
      }
    }
  }

  lemma LeftAgain(limit: nat, a: nat, b: nat)
    ensures Left(Left(limit, a), b) == Left(limit, a + b)
  {
  }

  lemma SkipShared<R>(shared: seq<R>, a: seq<R>, b: seq<R>, n: nat)
    ensures Take(shared + a, n) == Take(shared + b, n) <==> Take(a, Left(n, |shared|)) == Take(b, Left(n, |shared|))
  {
    if n > |shared| {
      assert Take(shared + a, n) == shared + Take(a, n - |shared|);
      assert Take(shared + b, n) == shared + Take(b, n - |shared|);
      if Take(shared + a, n) == Take(shared + b, n) {
        assert (shared + Take(a, n - |shared|))[|shared|..] == Take(a, n - |shared|);
        assert (shared + Take(b, n - |shared|))[|shared|..] == Take(b, n - |shared|);
      }
    } else {
      assert Take(shared + a, n) == shared[..n] == Take(shared + b, n);
    }
  }

  /** Own rows cut at a limit that is out of sight anyway. */
  lemma SkipOwn<R>(text: seq<R>, own: seq<R>, a: seq<R>, b: seq<R>, n: nat, limit: nat)
    requires n <= limit
    ensures Take(text + own + a, n) == Take(text + Take(own, limit) + b, n)
            <==> Take(a, Left(n, |text + own|)) == Take(b, Left(n, |text + own|))
  {
    if |own| <= limit {
      SkipShared(text + own, a, b, n);
    } else {
      var cut := own[..limit];
      assert Take(text + own + a, n) == Take(text + cut, n);
      assert Take(text + cut + b, n) == Take(text + cut, n);
    }
  }

  lemma SkipText<R>(text: seq<R>, plain: seq<R>, a: seq<R>, mixed: seq<R>, b: seq<R>, n: nat)
    requires plain == text + [] + a && mixed == text + [] + b
    ensures Take(plain, n) == Take([] + mixed, n) <==> Take(a, Left(n, |text|)) == Take([] + b, Left(n, |text|))
  {
    assert plain == text + a && [] + mixed == text + b && [] + b == b;
    SkipShared(text, a, b, n);
  }

  lemma ShareBlank<R>(ps: seq<Piece<R>>, d: nat, path: string, limit: nat)
    requires d < |ps| && ps[d].own == []
    ensures ToCome(ps, d, path, limit) == ToCome(ps, d + 1, path, limit)
  {
    ShareStep(ps, d, path, limit);
  }

  lemma BeforeNext<R>(ps: seq<Piece<R>>, d: nat, path: string)
    requires d < |ps|
    ensures Before(ps, d + 1, path) <==> Before(ps, d, path) || ps[d].path == path
  {
    if Before(ps, d, path) {
      var m :| 0 <= m < d && ps[m].path == path;
    }
  }

  /** A file without symbol rows, whose path has none to come, changes nothing in what is ahead. */
  lemma BlankStep<R>(ps: seq<Piece<R>>, d: nat, limit: nat, i: int, ahead: seq<R>)
    requires d < |ps| && InStep(ps, d, limit, i, ahead) && ps[d].own == []
    requires ahead != [] ==> ps[d].text == [] && ps[d].path != ps[i].path
    requires ToCome(ps, d, ps[d].path, limit) == []
    ensures InStep(ps, d + 1, limit, i, ahead)
  {
    var next := d + 1;
    forall path ensures StandsAt(ps, next, limit, i, ahead, path) {
      ShareBlank(ps, d, path, limit);
      BeforeNext(ps, d, path);
      assert StandsAt(ps, d, limit, i, ahead, path);
    }
    assert ahead != [] ==> IsLast(ps, next, i);
  }

  lemma NoneHere<R>(ps: seq<Piece<R>>, d: nat, limit: nat)
    requires d < |ps| && ToCome(ps, d, ps[d].path, limit) == [] && |Plain(ps, d)| < limit
    ensures ps[d].own == []
  {
    RowsGrow(ps, d, d);
    ShareStep(ps, d, ps[d].path, limit);
  }

  /** A file without symbol rows to come, while nothing is ahead. */
  lemma SeenFile<R>(ps: seq<Piece<R>>, table: string -> seq<R>, d: nat, limit: nat, i: int)
    requires d < |ps| && InStep(ps, d, limit, i, []) && Before(ps, d, ps[d].path) && |Plain(ps, d)| < limit
    ensures InStep(ps, d + 1, limit, i, [])
    ensures SameFrom(ps, table, d, limit, []) <==> SameFrom(ps, table, d + 1, limit, [])
  {
    assert StandsAt(ps, d, limit, i, [], ps[d].path);
    NoneHere(ps, d, limit);
    BlankStep(ps, d, limit, i, []);
    LeftAgain(limit, |Plain(ps, d)|, |ps[d].text|);
    SkipText(ps[d].text, PlainFrom(ps, d), PlainFrom(ps, d + 1), MixedFrom(ps, table, d), MixedFrom(ps, table, d + 1),
             Left(limit, |Plain(ps, d)|));
  }

  /** All later rows of a path are ahead once its rows were handed out. */
  lemma HandedStep<R>(ps: seq<Piece<R>>, d: nat, limit: nat, i: int, ahead: seq<R>) returns (after: seq<R>)
    requires d < |ps| && InStep(ps, d, limit, i, ahead)
    requires ahead == [] || ps[d].path == ps[i].path
    ensures after == ToCome(ps, d + 1, ps[d].path, limit) && InStep(ps, d + 1, limit, d, after)
    ensures ToCome(ps, d, ps[d].path, limit) == Take(ps[d].own, Left(limit, |Owns(ps, d)|)) + after
  {
    after := ToCome(ps, d + 1, ps[d].path, limit);
    ShareStep(ps, d, ps[d].path, limit);
    var next := d + 1;
    forall path ensures StandsAt(ps, next, limit, d, after, path) {
      if path != ps[d].path {
        ShareSkip(ps, d, path, limit);
        BeforeNext(ps, d, path);
        assert StandsAt(ps, d, limit, i, ahead, path);
      }
    }
  }

  lemma {:induction false} ShareUnseen<R>(ps: seq<Piece<R>>, d: nat, path: string, limit: nat)
    requires d <= |ps| && !Before(ps, d, path)
    ensures ToCome(ps, 0, path, limit) == ToCome(ps, d, path, limit)
  {
    if d == 0 {
    } else {
      assert !Before(ps, d - 1, path);
      ShareUnseen(ps, d - 1, path, limit);
      ShareSkip(ps, d - 1, path, limit);
    }
  }

  lemma EmptyFirst<R>(rows: seq<R>)
    ensures [] + rows == rows
  {
  }

  lemma HandedGroups<R>(text: seq<R>, cut: seq<R>, after: seq<R>, b: seq<R>)
    ensures text + (cut + after) + b == text + cut + (after + b)
  {
    ConcatAssociates(text, cut, after);
    ConcatAssociates(text + cut, after, b);
  }

  lemma SkipHanded<R>(text: seq<R>, own: seq<R>, plain: seq<R>, a: seq<R>, mixed: seq<R>, after: seq<R>, b: seq<R>,
                      n: nat, limit: nat)
    requires n <= limit && plain == text + own + a && mixed == text + (Take(own, limit) + after) + b
    ensures Take(plain, n) == Take([] + mixed, n)
            <==> Take(a, Left(n, |text + own|)) == Take(after + b, Left(n, |text + own|))
  {
    EmptyFirst(mixed);
    HandedGroups(text, Take(own, limit), after, b);
    SkipOwn(text, own, a, after + b, n, limit);
  }

  lemma NewFileRows<R>(ps: seq<Piece<R>>, table: string -> seq<R>, d: nat, limit: nat, after: seq<R>)
    requires d < |ps| && !Before(ps, d, ps[d].path)
    requires table(ps[d].path) == Take(ps[d].own, Left(limit, |Owns(ps, d)|)) + after
    ensures SameFrom(ps, table, d, limit, []) <==> SameFrom(ps, table, d + 1, limit, after)
  {
    RowsGrow(ps, d, d);
    RowsUnfold(ps, table, d);
    LeftAgain(limit, |Plain(ps, d)|, |ps[d].text + ps[d].own|);
    SkipHanded(ps[d].text, ps[d].own, PlainFrom(ps, d), PlainFrom(ps, d + 1), MixedFrom(ps, table, d), after,
               MixedFrom(ps, table, d + 1), Left(limit, |Plain(ps, d)|), Left(limit, |Owns(ps, d)|));
  }

  /** A path that comes first here: its rows are handed out, those of later occurrences included. */
  lemma NewFile<R>(ps: seq<Piece<R>>, table: string -> seq<R>, d: nat, limit: nat, i: int) returns (after: seq<R>)
    requires d < |ps| && InStep(ps, d, limit, i, []) && !Before(ps, d, ps[d].path)
    requires Hands(ps, table, limit)
    ensures InStep(ps, d + 1, limit, d, after)
    ensures SameFrom(ps, table, d, limit, []) <==> SameFrom(ps, table, d + 1, limit, after)
  {
    after := HandedStep(ps, d, limit, i, []);
    assert HandsAt(ps, table, limit, ps[d].path);
    ShareUnseen(ps, d, ps[d].path, limit);
    NewFileRows(ps, table, d, limit, after);
  }

  lemma SkipAhead<R>(own: seq<R>, plain: seq<R>, a: seq<R>, ahead: seq<R>, after: seq<R>, mixed: seq<R>, b: seq<R>,
                     n: nat, limit: nat)
    requires n <= limit && plain == [] + own + a && ahead == Take(own, limit) + after && mixed == [] + [] + b
    ensures Take(plain, n) == Take(ahead + mixed, n) <==> Take(a, Left(n, |own|)) == Take(after + b, Left(n, |own|))
  {
    EmptyFirst(own);
    EmptyFirst(b);
    EmptyFirst(Take(own, limit));
    ConcatAssociates(Take(own, limit), after, b);
    SkipOwn([], own, a, after + b, n, limit);
  }

  lemma SameFileRows<R>(ps: seq<Piece<R>>, table: string -> seq<R>, d: nat, limit: nat, ahead: seq<R>, after: seq<R>)
    requires d < |ps| && Before(ps, d, ps[d].path) && ps[d].text == []
    requires ahead == Take(ps[d].own, Left(limit, |Owns(ps, d)|)) + after
    ensures SameFrom(ps, table, d, limit, ahead) <==> SameFrom(ps, table, d + 1, limit, after)
  {
    RowsGrow(ps, d, d);
    RowsUnfold(ps, table, d);
    LeftAgain(limit, |Plain(ps, d)|, |ps[d].own|);
    SkipAhead(ps[d].own, PlainFrom(ps, d), PlainFrom(ps, d + 1), ahead, after, MixedFrom(ps, table, d),
              MixedFrom(ps, table, d + 1), Left(limit, |Plain(ps, d)|), Left(limit, |Owns(ps, d)|));
  }

  /** The path whose rows are ahead comes again with nothing in between: some of what is ahead is caught up with. */
  lemma SameFile<R>(ps: seq<Piece<R>>, table: string -> seq<R>, d: nat, limit: nat, i: int, ahead: seq<R>)
    returns (after: seq<R>)
    requires d < |ps| && InStep(ps, d, limit, i, ahead) && ahead != []
    requires ps[d].path == ps[i].path && ps[d].text == []
    ensures InStep(ps, d + 1, limit, d, after)
    ensures SameFrom(ps, table, d, limit, ahead) <==> SameFrom(ps, table, d + 1, limit, after)
  {
    after := HandedStep(ps, d, limit, i, ahead);
    AheadComes(ps, d, limit, i, ahead);
    SameFileRows(ps, table, d, limit, ahead, after);
  }

  /** A path whose file has no symbol rows now has none later. */
  lemma NoneLater<R>(ps: seq<Piece<R>>, owner: R -> Option<string>, d: nat, limit: nat)
    requires WellFormed(ps, owner) && d < |ps| && ps[d].own == []
    ensures ToCome(ps, d, ps[d].path, limit) == []
  {
    ShareEmpty(ps, d, ps[d].path, limit);
    forall j | d <= j < |ps| && ps[j].path == ps[d].path ensures ps[j].own == [] {
      assert Repeats(ps, d, j);
    }
  }

  /** A file without symbol rows is given none. */
  lemma NothingGiven<R>(ps: seq<Piece<R>>, owner: R -> Option<string>, table: string -> seq<R>, d: nat, limit: nat)
    requires WellFormed(ps, owner) && Hands(ps, table, limit) && d < |ps| && ps[d].own == []
    ensures Given(ps, table, d) == []
  {
    if !Before(ps, d, ps[d].path) {
      NoneLater(ps, owner, d, limit);
      ShareUnseen(ps, d, ps[d].path, limit);
      assert HandsAt(ps, table, limit, ps[d].path);
    }
  }

  lemma BlankRows<R>(ps: seq<Piece<R>>, table: string -> seq<R>, d: nat, limit: nat, ahead: seq<R>)
    requires d < |ps| && ps[d].text == [] && ps[d].own == [] && Given(ps, table, d) == []
    ensures SameFrom(ps, table, d, limit, ahead) <==> SameFrom(ps, table, d + 1, limit, ahead)
  {
    var n := Left(limit, |Plain(ps, d)|);
    RowsUnfold(ps, table, d);
    SkipAhead([], PlainFrom(ps, d), PlainFrom(ps, d + 1), ahead, ahead, MixedFrom(ps, table, d),
              MixedFrom(ps, table, d + 1), n, n);
  }

  /** A file that adds nothing, while something is ahead. */
  lemma BlankFile<R>(ps: seq<Piece<R>>, owner: R -> Option<string>, table: string -> seq<R>, d: nat, limit: nat, i: int,
                     ahead: seq<R>)
    requires WellFormed(ps, owner) && d < |ps| && InStep(ps, d, limit, i, ahead) && ahead != []
    requires ps[d].path != ps[i].path && ps[d].text == [] && ps[d].own == []
    requires Hands(ps, table, limit)
    ensures InStep(ps, d + 1, limit, i, ahead)
    ensures SameFrom(ps, table, d, limit, ahead) <==> SameFrom(ps, table, d + 1, limit, ahead)
  {
    NoneLater(ps, owner, d, limit);
    BlankStep(ps, d, limit, i, ahead);
    NothingGiven(ps, owner, table, d, limit);
    BlankRows(ps, table, d, limit, ahead);
  }

  lemma {:induction false} ShareOwned<R>(ps: seq<Piece<R>>, owner: R -> Option<string>, d: nat, path: string,
                                         limit: nat)
    requires WellFormed(ps, owner) && d <= |ps|
    ensures forall row :: row in Share(ps, d, path, limit) ==> owner(row) == Some(path)
    decreases |ps| - d
  {
    if d == |ps| {
    } else {
      ShareOwned(ps, owner, d + 1, path, Left(limit, |ps[d].own|));
      assert OwnedAt(ps, owner, d);
      assert forall row :: row in Take(ps[d].own, limit) ==> row in ps[d].own;
    }
  }

  lemma {:induction false} FirstFrom<R>(ps: seq<Piece<R>>, d: nat, j: nat) returns (first: nat)
    requires d <= j < |ps|
    ensures d <= first <= j && ps[first].path == ps[j].path && forall m :: d <= m < first ==> ps[m].path != ps[j].path
    decreases j - d
  {
    if ps[d].path == ps[j].path {
      first := d;
    } else {
      first := FirstFrom(ps, d + 1, j);
    }
  }

  /** Rows of another kind come before what is ahead is caught up with. */
  ghost predicate Breaks<R>(ps: seq<Piece<R>>, d: nat, i: int)
    requires d < |ps| && 0 <= i < |ps|
  {
    ps[d].text != [] || (ps[d].path != ps[i].path && ps[d].own != [])
  }

  lemma NextOccurrence<R>(ps: seq<Piece<R>>, owner: R -> Option<string>, d: nat, limit: nat, path: string)
    returns (j: nat)
    requires WellFormed(ps, owner) && d <= |ps| && ToCome(ps, d, path, limit) != []
    ensures d <= j < |ps| && ps[j].path == path && ps[j].own != [] && |Owns(ps, j)| < limit
    ensures forall m :: d <= m < j ==> ps[m].path != path
  {
    ShareEmpty(ps, d, path, limit);
    var later :| d <= later < |ps| && ps[later].path == path && ps[later].own != [] && |Owns(ps, later)| < limit;
    j := FirstFrom(ps, d, later);
    assert Repeats(ps, j, later);
    RowsGrow(ps, j, later);
  }

  lemma ShownBetween<R>(ps: seq<Piece<R>>, d: nat, i: int, j: nat)
    requires 0 <= i < d <= j < |ps| && ps[j].path == ps[i].path && Breaks(ps, d, i)
    ensures |Plain(ps, d)| < |Plain(ps, j)| + |ps[j].text|
  {
    if d < j {
      RowsGrow(ps, d + 1, j);
    }
  }

  lemma BreakIsTorn<R>(ps: seq<Piece<R>>, owner: R -> Option<string>, d: nat, limit: nat, i: int, ahead: seq<R>)
    requires WellFormed(ps, owner) && d < |ps| && InStep(ps, d, limit, i, ahead) && ahead != []
    requires |Plain(ps, d)| < limit && Breaks(ps, d, i)
    ensures !NoneTorn(ps, d, limit)
  {
    AheadComes(ps, d, limit, i, ahead);
    var j := NextOccurrence(ps, owner, d, limit, ps[i].path);
    ShownBetween(ps, d, i, j);
    assert Torn(ps, i, j, limit);
  }

  lemma FirstDiffers<R>(plain: seq<R>, ahead: seq<R>, mixed: seq<R>, n: nat)
    requires n > 0 && plain != [] && ahead != [] && plain[0] != ahead[0]
    ensures Take(plain, n) != Take(ahead + mixed, n)
  {
    assert Take(plain, n)[0] == plain[0] && Take(ahead + mixed, n)[0] == ahead[0];
  }

  lemma FirstOwners<R>(ps: seq<Piece<R>>, owner: R -> Option<string>, d: nat, limit: nat, i: int, ahead: seq<R>)
    requires WellFormed(ps, owner) && d < |ps| && InStep(ps, d, limit, i, ahead) && ahead != [] && Breaks(ps, d, i)
    ensures owner(ahead[0]) == Some(ps[i].path) && PlainFrom(ps, d) != []
    ensures owner(PlainFrom(ps, d)[0]) != Some(ps[i].path)
  {
    AheadComes(ps, d, limit, i, ahead);
    assert OwnedAt(ps, owner, d);
    ShareOwned(ps, owner, d, ps[i].path, Left(limit, |Owns(ps, d)|));
    assert ahead[0] in ahead;
    if ps[d].text != [] {
      assert PlainFrom(ps, d)[0] == ps[d].text[0] && ps[d].text[0] in ps[d].text;
    } else {
      assert PlainFrom(ps, d)[0] == ps[d].own[0] && ps[d].own[0] in ps[d].own;
    }
  }

  lemma BreakIsSeen<R>(ps: seq<Piece<R>>, owner: R -> Option<string>, table: string -> seq<R>, d: nat, limit: nat,
                       i: int, ahead: seq<R>)
    requires WellFormed(ps, owner) && d < |ps| && InStep(ps, d, limit, i, ahead) && ahead != []
    requires |Plain(ps, d)| < limit && Breaks(ps, d, i)
    ensures !SameFrom(ps, table, d, limit, ahead)
  {
    FirstOwners(ps, owner, d, limit, i, ahead);
    FirstDiffers(PlainFrom(ps, d), ahead, MixedFrom(ps, table, d), Left(limit, |Plain(ps, d)|));
  }

  lemma FullIsSame<R>(ps: seq<Piece<R>>, table: string -> seq<R>, d: nat, limit: nat, ahead: seq<R>)
    requires d <= |ps| && |Plain(ps, d)| >= limit
    ensures SameFrom(ps, table, d, limit, ahead)
  {
  }

  lemma NothingAhead<R>(ps: seq<Piece<R>>, table: string -> seq<R>, limit: nat, i: int, ahead: seq<R>)
    requires InStep(ps, |ps|, limit, i, ahead)
    ensures SameFrom(ps, table, |ps|, limit, ahead) && NoneTorn(ps, |ps|, limit)
  {
    if ahead != [] {
      AheadComes(ps, |ps|, limit, i, ahead);
    }
  }

  lemma NextFile<R>(ps: seq<Piece<R>>, owner: R -> Option<string>, table: string -> seq<R>, d: nat, limit: nat, i: int,
                    ahead: seq<R>)
    returns (last: int, after: seq<R>)
    requires WellFormed(ps, owner) && d < |ps| && InStep(ps, d, limit, i, ahead) && |Plain(ps, d)| < limit
    requires ahead != [] ==> !Breaks(ps, d, i)
    requires Hands(ps, table, limit)
    ensures InStep(ps, d + 1, limit, last, after)
    ensures SameFrom(ps, table, d, limit, ahead) <==> SameFrom(ps, table, d + 1, limit, after)
  {
    if ahead == [] {
      if Before(ps, d, ps[d].path) {
        SeenFile(ps, table, d, limit, i);
        last, after := i, [];
      } else {
        after := NewFile(ps, table, d, limit, i);
        last := d;
      }
    } else if ps[d].path == ps[i].path {
      after := SameFile(ps, table, d, limit, i, ahead);
      last := d;
    } else {
      BlankFile(ps, owner, table, d, limit, i, ahead);
      last, after := i, ahead;
    }
  }

  ghost predicate Matches<R>(ps: seq<Piece<R>>, table: string -> seq<R>, d: nat, limit: nat, ahead: seq<R>)
    requires d <= |ps|
  {
    SameFrom(ps, table, d, limit, ahead) <==> NoneTorn(ps, d, limit)
  }

  /** One file decides the matter, or leaves it to the files after it. */
  lemma OneFile<R>(ps: seq<Piece<R>>, owner: R -> Option<string>, table: string -> seq<R>, d: nat, limit: nat, i: int,
                   ahead: seq<R>)
    returns (decided: bool, last: int, after: seq<R>)
    requires WellFormed(ps, owner) && d < |ps| && InStep(ps, d, limit, i, ahead) && Hands(ps, table, limit)
    ensures decided ==> Matches(ps, table, d, limit, ahead)
    ensures !decided ==> InStep(ps, d + 1, limit, last, after)
    ensures !decided && Matches(ps, table, d + 1, limit, after) ==> Matches(ps, table, d, limit, ahead)
  {
    decided, last, after := true, i, ahead;
    if |Plain(ps, d)| >= limit {
      FullNoneTorn(ps, d, limit, i, ahead);
      FullIsSame(ps, table, d, limit, ahead);
    } else if ahead != [] && Breaks(ps, d, i) {
      BreakIsTorn(ps, owner, d, limit, i, ahead);
      BreakIsSeen(ps, owner, table, d, limit, i, ahead);
    } else {
      NotTornHere(ps, d, limit, i, ahead);
      last, after := NextFile(ps, owner, table, d, limit, i, ahead);
      decided := false;
    }
  }

  /**
   Going through `n` files: if each point at which the searches stand is fine, or as fine as a point at which they
   stand one file later, and the end is fine, then every such point is.
   */
  lemma {:induction false} Descend<S(!new)>(n: nat, stands: (nat, S) -> bool, fine: (nat, S) -> bool, d: nat, s: S)
    requires d <= n && stands(d, s)
    requires forall e :: stands(n, e) ==> fine(n, e)
    requires forall m: nat, e :: m < n && stands(m, e) ==> fine(m, e) || exists f :: Passes(stands, fine, m, e, f)
    ensures fine(d, s)
    decreases n - d
  {
    if d == n {
    } else if !fine(d, s) {
      var f :| Passes(stands, fine, d, s, f);
      Descend(n, stands, fine, d + 1, f);
    }
  }

  ghost predicate Passes<S>(stands: (nat, S) -> bool, fine: (nat, S) -> bool, d: nat, s: S, f: S) {
    stands(d + 1, f) && (fine(d + 1, f) ==> fine(d, s))
  }

  /** Where the second search may stand: what it has shown ahead, and since which file. */
  datatype Standing<R> = Standing(last: int, ahead: seq<R>)

  ghost function Stands<R>(ps: seq<Piece<R>>, limit: nat): (nat, Standing<R>) -> bool {
    (d: nat, s: Standing<R>) => d <= |ps| && InStep(ps, d, limit, s.last, s.ahead)
  }

  ghost function Fine<R>(ps: seq<Piece<R>>, table: string -> seq<R>, limit: nat): (nat, Standing<R>) -> bool {
    (d: nat, s: Standing<R>) => d <= |ps| ==> Matches(ps, table, d, limit, s.ahead)
  }

  lemma FilePasses<R>(ps: seq<Piece<R>>, owner: R -> Option<string>, table: string -> seq<R>, d: nat, limit: nat,
                      s: Standing<R>)
    requires WellFormed(ps, owner) && d < |ps| && Stands(ps, limit)(d, s) && Hands(ps, table, limit)
    ensures Fine(ps, table, limit)(d, s) || exists f :: Passes(Stands(ps, limit), Fine(ps, table, limit), d, s, f)
  {
    var decided, last, after := OneFile(ps, owner, table, d, limit, s.last, s.ahead);
    if !decided {
      assert Passes(Stands(ps, limit), Fine(ps, table, limit), d, s, Standing(last, after));
    }
  }

  /** From the start on, the two searches show the same up to the limit exactly if no file is torn. */
  lemma SameFromStart<R(!new)>(ps: seq<Piece<R>>, owner: R -> Option<string>, table: string -> seq<R>, limit: nat)
    requires WellFormed(ps, owner) && Hands(ps, table, limit)
    ensures Matches(ps, table, 0, limit, [])
  {
    var stands, fine := Stands(ps, limit), Fine(ps, table, limit);
    forall s: Standing<R> | stands(|ps|, s) ensures fine(|ps|, s) {
      NothingAhead(ps, table, limit, s.last, s.ahead);
    }
    forall m: nat, s: Standing<R> | m < |ps| && stands(m, s)
      ensures fine(m, s) || exists f :: Passes(stands, fine, m, s, f)
    {
      FilePasses(ps, owner, table, m, limit, s);
    }
    assert stands(0, Standing(0, []));
    Descend(|ps|, stands, fine, 0, Standing(0, []));
  }

  lemma FromTheStart<R>(ps: seq<Piece<R>>, table: string -> seq<R>)
    ensures PlainFrom(ps, 0) == Plain(ps, |ps|) && MixedFrom(ps, table, 0) == Mixed(ps, table, |ps|)
  {
    PlainSplits(ps, 0);
    MixedSplits(ps, table, 0);
    EmptyFirst(PlainFrom(ps, 0));
    EmptyFirst(MixedFrom(ps, table, 0));
  }

  lemma SameFromTheStart<R>(ps: seq<Piece<R>>, table: string -> seq<R>, limit: nat)
    ensures SameFrom(ps, table, 0, limit, []) <==> Take(Plain(ps, |ps|), limit) == Take(Mixed(ps, table, |ps|), limit)
  {
    FromTheStart(ps, table);
    EmptyFirst(MixedFrom(ps, table, 0));
  }

  lemma NoneTornAtAll<R>(ps: seq<Piece<R>>, limit: nat)
    ensures NoneTorn(ps, 0, limit) <==> forall i, j :: !Torn(ps, i, j, limit)
  {
  }

  /** The two searches show the same first `limit` rows if and only if no file is torn from an earlier occurrence. */
  lemma SameExactlyWhen<R(!new)>(ps: seq<Piece<R>>, owner: R -> Option<string>, table: string -> seq<R>, limit: nat)
    requires WellFormed(ps, owner)
    requires Hands(ps, table, limit)
    ensures Take(Plain(ps, |ps|), limit) == Take(Mixed(ps, table, |ps|), limit)
            <==> forall i, j :: !Torn(ps, i, j, limit)
  {
    SameFromStart(ps, owner, table, limit);
    SameFromTheStart(ps, table, limit);
    NoneTornAtAll(ps, limit);
  }

  lemma TwiceIsTorn<R>(ps: seq<Piece<R>>, piece: Piece<R>, limit: nat)
    requires |ps| == 2 && ps[0] == piece && ps[1] == piece && piece.text != [] && piece.own != []
    requires |piece.text| + |piece.own| < limit
    ensures Torn(ps, 0, 1, limit)
  {
    assert |Plain(ps, 0)| == 0 && |Owns(ps, 0)| == 0;
    assert |Plain(ps, 1)| == |piece.text| + |piece.own| && |Owns(ps, 1)| == |piece.own|;
  }
}
