/**
 The rows of a list of files in which a file may occur more than once: all of them (`Whole`), and those
 of each file's first occurrence only (`Once`).
 */
module RepeatedFiles {
  import opened Basics

  ghost function Whole<R>(rows: string -> seq<R>, paths: seq<string>): seq<R> {
    if paths == [] then [] else Whole(rows, paths[..|paths| - 1]) + rows(paths[|paths| - 1])
  }

  ghost function Once<R>(rows: string -> seq<R>, paths: seq<string>): seq<R> {
    if paths == [] then []
    else
      var shorter, last := paths[..|paths| - 1], paths[|paths| - 1];
      Once(rows, shorter) + if last in shorter then [] else rows(last)
  }

  /** The file at `j` was listed before and has rows. */
  ghost predicate Repeated<R>(rows: string -> seq<R>, paths: seq<string>, j: int) {
    0 <= j < |paths| && paths[j] in paths[..j] && rows(paths[j]) != []
  }

  /** The limit is reached before the first file that is repeated. */
  ghost predicate LimitFirst<R>(rows: string -> seq<R>, paths: seq<string>, limit: nat) {
    forall j :: Repeated(rows, paths, j) ==> |Whole(rows, paths[..j])| >= limit
  }

  /** Every row names the file it belongs to. */
  ghost predicate Owned<R>(rows: string -> seq<R>, owner: R -> string) {
    forall path, i :: 0 <= i < |rows(path)| ==> owner(rows(path)[i]) == path
  }

  lemma {:induction false} WholeGrows<R>(rows: string -> seq<R>, paths: seq<string>, j: nat)
    requires j <= |paths|
    ensures |Whole(rows, paths[..j])| <= |Whole(rows, paths)|
  {
    if j == |paths| {
      assert paths[..j] == paths;
    } else {
      WholeGrows(rows, paths[..|paths| - 1], j);
      assert paths[..|paths| - 1][..j] == paths[..j];
    }
  }

  lemma RepeatedBefore<R>(rows: string -> seq<R>, paths: seq<string>, last: string, j: nat)
    requires j < |paths|
    ensures Repeated(rows, paths + [last], j) == Repeated(rows, paths, j)
    ensures (paths + [last])[..j] == paths[..j]
  {
  }

  lemma LimitFirstNext<R>(rows: string -> seq<R>, paths: seq<string>, last: string, limit: nat)
    ensures LimitFirst(rows, paths + [last], limit) <==>
            LimitFirst(rows, paths, limit) && (last in paths && rows(last) != [] ==> |Whole(rows, paths)| >= limit)
  {
    var longer := paths + [last];
    assert longer[..|paths|] == paths && longer[|paths|] == last;
    forall j | 0 <= j < |paths|
      ensures Repeated(rows, longer, j) == Repeated(rows, paths, j) && longer[..j] == paths[..j]
    {
      RepeatedBefore(rows, paths, last, j);
    }
    assert Repeated(rows, longer, |paths|) <==> last in paths && rows(last) != [];
    if LimitFirst(rows, longer, limit) {
      forall j | Repeated(rows, paths, j) ensures |Whole(rows, paths[..j])| >= limit {
        assert Repeated(rows, longer, j);
      }
    }
  }

  lemma AppendWithin<R>(once: seq<R>, whole: seq<R>, more: seq<R>, limit: nat)
    requires Take(once, limit) == Take(whole, limit) && (|once| >= limit <==> |whole| >= limit)
    ensures Take(once + more, limit) == Take(whole + more, limit)
    ensures |once + more| >= limit <==> |whole + more| >= limit
    ensures |whole| >= limit ==> Take(once, limit) == Take(whole + more, limit)
  {
  }

  lemma {:induction false} SameUpToLimit<R>(rows: string -> seq<R>, paths: seq<string>, limit: nat)
    requires LimitFirst(rows, paths, limit)
    ensures Take(Once(rows, paths), limit) == Take(Whole(rows, paths), limit)
    ensures |Once(rows, paths)| >= limit <==> |Whole(rows, paths)| >= limit
  {
    if paths == [] {
    } else {
      var shorter, last := paths[..|paths| - 1], paths[|paths| - 1];
      assert paths == shorter + [last];
      LimitFirstNext(rows, shorter, last, limit);
      SameUpToLimit(rows, shorter, limit);
      AppendWithin(Once(rows, shorter), Whole(rows, shorter), rows(last), limit);
    }
  }

  /** A row of `Whole` at which `Once` goes on differently, because its file was listed before. */
  ghost predicate PartsAt<R>(owner: R -> string, whole: seq<R>, once: seq<R>, paths: seq<string>, p: nat) {
    && p < |whole| && owner(whole[p]) in paths
    && (p < |once| ==> owner(once[p]) != owner(whole[p]))
  }

  lemma {:induction false} PartsWithin<R>(rows: string -> seq<R>, owner: R -> string, paths: seq<string>, limit: nat)
    returns (p: nat)
    requires Owned(rows, owner) && !LimitFirst(rows, paths, limit)
    ensures p < limit && PartsAt(owner, Whole(rows, paths), Once(rows, paths), paths, p)
  {
    if paths == [] {
      assert false;
    } else {
      var shorter, last := paths[..|paths| - 1], paths[|paths| - 1];
      assert paths == shorter + [last];
      LimitFirstNext(rows, shorter, last, limit);
      if !LimitFirst(rows, shorter, limit) {
        p := PartsWithin(rows, owner, shorter, limit);
      } else {
        SameUpToLimit(rows, shorter, limit);
        p := |Whole(rows, shorter)|;
        assert Whole(rows, paths)[p] == rows(last)[0];
      }
    }
  }

  /** The first `limit` rows are the same if and only if they are complete before a file is repeated. */
  lemma SameExactlyWhen<R>(rows: string -> seq<R>, owner: R -> string, paths: seq<string>, limit: nat)
    requires Owned(rows, owner)
    ensures Take(Once(rows, paths), limit) == Take(Whole(rows, paths), limit) <==> LimitFirst(rows, paths, limit)
    ensures LimitFirst(rows, paths, limit) ==> (|Once(rows, paths)| >= limit <==> |Whole(rows, paths)| >= limit)
  {
    if LimitFirst(rows, paths, limit) {
      SameUpToLimit(rows, paths, limit);
    } else {
      var p := PartsWithin(rows, owner, paths, limit);
      var once, whole := Once(rows, paths), Whole(rows, paths);
      if p < |once| {
        assert Take(once, limit)[p] == once[p] && Take(whole, limit)[p] == whole[p];
      }
    }
  }

  lemma NoneRepeated<R>(rows: string -> seq<R>, paths: seq<string>, limit: nat)
    requires limit > |Whole(rows, paths)|
    ensures LimitFirst(rows, paths, limit) <==> forall j :: !Repeated(rows, paths, j)
  {
    forall j | Repeated(rows, paths, j) ensures |Whole(rows, paths[..j])| < limit {
      WholeGrows(rows, paths, j);
    }
  }

  /** Without a limit: the rows are the same if and only if no file with rows is listed twice. */
  lemma SameWithoutLimit<R>(rows: string -> seq<R>, owner: R -> string, paths: seq<string>)
    requires Owned(rows, owner)
    ensures Once(rows, paths) == Whole(rows, paths) <==> forall j :: !Repeated(rows, paths, j)
  {
    var once, whole := Once(rows, paths), Whole(rows, paths);
    var limit := |whole| + |once| + 1;
    SameExactlyWhen(rows, owner, paths, limit);
    NoneRepeated(rows, paths, limit);
    assert Take(once, limit) == once && Take(whole, limit) == whole;
  }

  lemma TwoOccurrences<R>(rows: string -> seq<R>, path: string, limit: nat)
    ensures Whole(rows, [path] + [path]) == rows(path) + rows(path) && Once(rows, [path] + [path]) == rows(path)
    ensures LimitFirst(rows, [path] + [path], limit) <==> rows(path) == [] || |rows(path)| >= limit
  {
    var one, two := [path], [path] + [path];
    assert one[..|one| - 1] == [] && two[..|two| - 1] == one && two[|two| - 1] == path;
    assert Whole(rows, one) == rows(path) && Once(rows, one) == rows(path);
    assert rows(path) + [] == rows(path);
    LimitFirstNext(rows, [], path, limit);
    LimitFirstNext(rows, [path], path, limit);
    assert [] + [path] == [path];
  }
}
