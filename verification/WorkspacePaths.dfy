/** Normalising paths of a workspace and making them relative to its root (`workspaceRelativePath`). */
module WorkspacePaths {
  import opened Basics
  import opened Text

  predicate IsDot(part: string) {
    part == "" || part == "."
  }

  /**
   The parts that are left once `.` and `..` are resolved; none when the path climbs above its start or holds a NUL.
   */
  function Resolved(parts: seq<string>): Option<seq<string>> {
    if parts == [] then Some([])
    else
      var before, last := Resolved(parts[..|parts| - 1]), parts[|parts| - 1];
      if before.None? || IsDot(last) then before
      else if last == ".." then (if before.value == [] then None else Some(before.value[..|before.value| - 1]))
      else if '\0' in last then None
      else Some(before.value + [last])
  }

  /** `normalizeAbsolutePath`. */
  function NormalizeAbsolute(value: string): Option<string> {
    var raw := Slashes(value);
    if raw == "" || raw[0] != '/' then None
    else
      var parts := Resolved(Split(raw, '/'));
      if parts.None? then None else Some("/" + Join(parts.value, '/'))
  }

  /** `normalizeRelativePath`. */
  function NormalizeRelative(value: string): Option<string> {
    var raw := Slashes(value);
    if raw == "" || raw[0] == '/' then None
    else
      var parts := Resolved(Split(raw, '/'));
      if parts.None? || parts.value == [] then None else Some(Join(parts.value, '/'))
  }

  /** The loop that both share; the source repeats it in each function. */
  method ResolveParts(parts: seq<string>) returns (stack: Option<seq<string>>)
    ensures stack == Resolved(parts)
  {
    var names := [];
    for i := 0 to |parts|
      invariant Resolved(parts[..i]) == Some(names)
    {
      assert parts[..i + 1][..i] == parts[..i];
      var part := parts[i];
      if IsDot(part) {
        continue;
      }
      if part == ".." {
        if names == [] {
          ResolvedStops(parts, i + 1);
          return None;
        }
        names := names[..|names| - 1];
        continue;
      }
      if '\0' in part {
        ResolvedStops(parts, i + 1);
        return None;
      }
      names := names + [part];
    }
    assert parts[..|parts|] == parts;
    stack := Some(names);
  }

  lemma {:induction false} ResolvedStops(parts: seq<string>, i: nat)
    requires i <= |parts| && Resolved(parts[..i]).None?
    ensures Resolved(parts).None?
  {
    if i < |parts| {
      assert parts[..|parts| - 1][..i] == parts[..i];
      ResolvedStops(parts[..|parts| - 1], i);
    } else {
      assert parts[..i] == parts;
    }
  }

  /** A part that names a file or directory. */
  predicate IsName(part: string) {
    !IsDot(part) && part != ".." && '\0' !in part && '/' !in part && '\\' !in part
  }

  ghost predicate AreNames(parts: seq<string>) {
    forall i :: 0 <= i < |parts| ==> IsName(parts[i])
  }

  lemma {:induction false} ResolvedNames(parts: seq<string>)
    requires AreNames(parts)
    ensures Resolved(parts) == Some(parts)
  {
    if parts == [] {
    } else {
      ResolvedNames(parts[..|parts| - 1]);
      assert parts == parts[..|parts| - 1] + [parts[|parts| - 1]];
    }
  }

  lemma {:induction false} ResolvedAreNames(parts: seq<string>)
    requires FreeOf(parts, '/') && FreeOf(parts, '\\')
    ensures Resolved(parts).Some? ==> AreNames(Resolved(parts).value)
  {
    if parts == [] {
    } else {
      ResolvedAreNames(parts[..|parts| - 1]);
    }
  }

  /** How far below the start a sequence of parts leads. */
  function Depth(parts: seq<string>): int {
    if parts == [] then 0
    else
      var last := parts[|parts| - 1];
      Depth(parts[..|parts| - 1]) + if IsDot(last) then 0 else if last == ".." then -1 else 1
  }

  predicate HoldsNul(part: string) {
    '\0' in part
  }

  /** The parts, or a prefix of them, lead above the start. */
  predicate Climbs(parts: seq<string>) {
    Depth(parts) < 0 || (parts != [] && Climbs(parts[..|parts| - 1]))
  }

  lemma {:induction false} ResolvedDepth(parts: seq<string>)
    ensures Resolved(parts).Some? ==> |Resolved(parts).value| == Depth(parts)
  {
    if parts == [] {
    } else {
      ResolvedDepth(parts[..|parts| - 1]);
    }
  }

  /** Resolving fails exactly when a part holds a NUL or some prefix leads above the start. */
  lemma {:induction false} ResolvedFails(parts: seq<string>)
    ensures Resolved(parts).None? <==> (exists i :: 0 <= i < |parts| && HoldsNul(parts[i])) || Climbs(parts)
  {
    if parts == [] {
    } else {
      var shorter := parts[..|parts| - 1];
      ResolvedFails(shorter);
      ResolvedDepth(shorter);
      assert forall i :: 0 <= i < |shorter| ==> parts[i] == shorter[i];
    }
  }

  /** A relative path that is already normal: names joined by single slashes. */
  ghost predicate IsClean(path: string) {
    path != "" && AreNames(Split(path, '/'))
  }

  lemma NamesAreFree(parts: seq<string>)
    requires AreNames(parts)
    ensures FreeOf(parts, '/') && FreeOf(parts, '\\') && FreeOf(parts, '\0')
  {
    forall i | 0 <= i < |parts|
      ensures '/' !in parts[i] && '\\' !in parts[i] && '\0' !in parts[i]
    {
      assert IsName(parts[i]);
    }
  }

  /** Joining names gives a clean path, and only that way does one come about. */
  lemma JoinIsClean(parts: seq<string>)
    requires AreNames(parts) && parts != []
    ensures IsClean(Join(parts, '/')) && Split(Join(parts, '/'), '/') == parts && Join(parts, '/')[0] != '/'
  {
    NamesAreFree(parts);
    SplitJoin(parts, '/');
    assert IsName(parts[0]);
    assert Join(parts, '/') != "" && Join(parts, '/')[0] == parts[0][0];
  }

  lemma CleanHasNoBackslash(path: string)
    requires IsClean(path)
    ensures '\\' !in path && path[0] != '/'
  {
    JoinSplit(path, '/');
    NamesAreFree(Split(path, '/'));
    JoinFreeOf(Split(path, '/'), '/', '\\');
    assert path[0] == '/' ==> Split(path, '/')[0] == "";
    assert IsName(Split(path, '/')[0]);
  }

  /** Normalising a relative path gives a clean one, and a clean path is what it gives back. */
  lemma NormalizeRelativeCleans(path: string)
    ensures NormalizeRelative(path).Some? ==> IsClean(NormalizeRelative(path).value)
    ensures NormalizeRelative(path) == Some(path) <==> IsClean(path)
  {
    var raw := Slashes(path);
    SplitFreeOf(raw, '/', '\\');
    ResolvedAreNames(Split(raw, '/'));
    if NormalizeRelative(path).Some? {
      JoinIsClean(Resolved(Split(raw, '/')).value);
    }
    if IsClean(path) {
      CleanHasNoBackslash(path);
      ResolvedNames(Split(path, '/'));
      JoinSplit(path, '/');
    }
  }

  /** An absolute path that is already normal. */
  ghost predicate IsCleanRoot(root: string) {
    root == "/" || (root != "" && root[0] == '/' && IsClean(root[1..]))
  }

  lemma SplitAbsolute(path: string)
    ensures Split("/" + path, '/') == [""] + Split(path, '/')
  {
    SplitConcat("", path, '/');
    assert "" + ['/'] + path == "/" + path;
  }

  lemma {:induction false} ResolvedSkipsStart(parts: seq<string>)
    ensures Resolved([""] + parts) == Resolved(parts)
  {
    if parts == [] {
      assert [""][..0] == [];
    } else {
      ResolvedSkipsStart(parts[..|parts| - 1]);
      assert ([""] + parts)[..|parts|] == [""] + parts[..|parts| - 1];
    }
  }

  /** Normalising an absolute path gives a clean one, and a clean one is what it gives back. */
  lemma NormalizeAbsoluteCleans(path: string)
    ensures NormalizeAbsolute(path).Some? ==> IsCleanRoot(NormalizeAbsolute(path).value)
    ensures IsCleanRoot(path) ==> NormalizeAbsolute(path) == Some(path)
  {
    var raw := Slashes(path);
    SplitFreeOf(raw, '/', '\\');
    ResolvedAreNames(Split(raw, '/'));
    if NormalizeAbsolute(path).Some? && Resolved(Split(raw, '/')).value != [] {
      JoinIsClean(Resolved(Split(raw, '/')).value);
    }
    if IsCleanRoot(path) {
      CleanRootIsFixed(path);
    }
  }

  lemma CleanRootIsFixed(path: string)
    requires IsCleanRoot(path)
    ensures NormalizeAbsolute(path) == Some(path)
  {
    var rest := path[1..];
    assert path == "/" + rest;
    SplitAbsolute(rest);
    ResolvedSkipsStart(Split(rest, '/'));
    if rest != "" {
      CleanHasNoBackslash(rest);
      ResolvedNames(Split(rest, '/'));
      JoinSplit(rest, '/');
    } else {
      assert Split("", '/') == [""];
      assert [""][..0] == [];
      assert Resolved([""]) == Some([]);
    }
  }

  /** What follows the root in an absolute path; none when the path is the root or lies outside. */
  function Below(abs: string, root: string): Option<string> {
    if abs == root || !(root + "/" <= abs) then None else NormalizeRelative(abs[|root| + 1..])
  }

  /** Below a root other than `/`, exactly the clean paths are found that lead from the root to the given path. */
  lemma BelowInvertsJoin(abs: string, root: string, path: string)
    requires IsCleanRoot(abs) && IsCleanRoot(root)
    ensures Below(abs, root) == Some(path) <==> root != "/" && abs == root + "/" + path && IsClean(path)
  {
    if root + "/" <= abs {
      var rest := abs[|root| + 1..];
      assert abs == root + "/" + rest;
      if root == "/" {
        assert abs[1] == '/' && abs[1..][0] == '/';
        CleanHasNoBackslash(abs[1..]);
      } else {
        RestIsClean(abs, root, rest);
        NormalizeRelativeCleans(rest);
      }
    }
    if abs == root + "/" + path {
      assert abs[|root| + 1..] == path;
    }
  }

  lemma RestIsClean(abs: string, root: string, rest: string)
    requires IsCleanRoot(abs) && IsCleanRoot(root) && root != "/" && abs == root + "/" + rest
    ensures IsClean(rest)
  {
    var left := root[1..];
    assert abs[1..] == left + ['/'] + rest;
    SplitConcat(left, rest, '/');
    var parts := Split(abs[1..], '/');
    assert forall i :: 0 <= i < |Split(rest, '/')| ==> Split(rest, '/')[i] == parts[|Split(left, '/')| + i];
    assert IsName(Split(rest, '/')[0]);
  }

  /** The length of the parts with a slash after each. */
  function Size(parts: seq<string>): nat {
    if parts == [] then 0 else |parts[0]| + 1 + Size(parts[1..])
  }

  lemma {:induction false} SizeMore(parts: seq<string>, last: string)
    ensures Size(parts + [last]) == Size(parts) + |last| + 1
  {
    if parts == [] {
      assert parts + [last] == [last] && [last][1..] == [];
    } else {
      assert (parts + [last])[1..] == parts[1..] + [last];
      SizeMore(parts[1..], last);
    }
  }

  lemma {:induction false} JoinSize(parts: seq<string>)
    requires parts != []
    ensures |Join(parts, '/')| == Size(parts) - 1
  {
    if |parts| > 1 {
      JoinSize(parts[1..]);
    } else {
      assert parts[1..] == [];
    }
  }

  lemma {:induction false} ResolvedSize(parts: seq<string>)
    ensures Resolved(parts).Some? ==> Size(Resolved(parts).value) <= Size(parts)
  {
    if parts != [] && Resolved(parts).Some? {
      var shorter, last := parts[..|parts| - 1], parts[|parts| - 1];
      ResolvedSize(shorter);
      SizeMore(shorter, last);
      assert parts == shorter + [last];
      var before := Resolved(shorter).value;
      if before != [] {
        SizeMore(before[..|before| - 1], before[|before| - 1]);
        assert before == before[..|before| - 1] + [before[|before| - 1]];
      }
      SizeMore(before, last);
    }
  }

  /** Normalising never makes a relative path longer. */
  lemma NormalizeRelativeShrinks(value: string)
    ensures NormalizeRelative(value).Some? ==> |NormalizeRelative(value).value| <= |value|
  {
    if NormalizeRelative(value).Some? {
      var raw := Slashes(value);
      ResolvedSize(Split(raw, '/'));
      JoinSplit(raw, '/');
      JoinSize(Split(raw, '/'));
      JoinSize(Resolved(Split(raw, '/')).value);
    }
  }

  /** Normalising never makes an absolute path longer. */
  lemma NormalizeAbsoluteShrinks(value: string)
    ensures NormalizeAbsolute(value).Some? ==> |NormalizeAbsolute(value).value| <= |value|
  {
    if NormalizeAbsolute(value).Some? {
      var raw := Slashes(value);
      var rest := raw[1..];
      assert raw == "/" + rest;
      SplitAbsolute(rest);
      ResolvedSkipsStart(Split(rest, '/'));
      ResolvedSize(Split(rest, '/'));
      JoinSplit(rest, '/');
      JoinSize(Split(rest, '/'));
      var parts := Resolved(Split(rest, '/')).value;
      if parts != [] {
        JoinSize(parts);
      }
    }
  }
}
