/** Relative-path sanitising of the code-navigation and companion services. */
module RelPath {
  import opened Basics
  import opened Text

  predicate DotSlash(s: string) {
    |s| >= 2 && s[0] == '.' && s[1] == '/'
  }

  function DropDotSlash(s: string): (r: string)
    ensures |r| <= |s|
    ensures !DotSlash(r)
    ensures !DotSlash(s) ==> r == s
    ensures '\\' !in s ==> '\\' !in r
  {
    if DotSlash(s) then DropDotSlash(s[2..]) else s
  }

  function NormalizeInput(value: string): string {
    DropDotSlash(Trim(Slashes(value), PythonSpace))
  }

  predicate RealSegment(part: string) {
    part != "" && part != "."
  }

  /** `_safe_rel_path`: the empty string stands for a refused path. */
  function SafeRelPath(value: string): string {
    var raw := NormalizeInput(value);
    if raw == "" || raw[0] == '/' || raw == ".." then ""
    else
      var parts := Filter(Split(raw, '/'), RealSegment);
      if ".." in parts then "" else Join(parts, '/')
  }

  ghost predicate CleanSegments(parts: seq<string>) {
    && FreeOf(parts, '/')
    && FreeOf(parts, '\\')
    && forall i :: 0 <= i < |parts| ==> RealSegment(parts[i]) && parts[i] != ".."
  }

  /** A path made of real segments only: nothing refers to a parent, nothing is absolute. */
  ghost predicate CleanPath(path: string) {
    exists parts :: parts != [] && CleanSegments(parts) && path == Join(parts, '/')
  }

  lemma CleanPathNonempty(path: string)
    requires CleanPath(path)
    ensures path != "" && path[0] != '/' && !DotSlash(path) && '\\' !in path
    ensures Filter(Split(path, '/'), RealSegment) == Split(path, '/')
    ensures ".." !in Split(path, '/') && path != ".."
  {
    var parts :| parts != [] && CleanSegments(parts) && path == Join(parts, '/');
    SplitJoin(parts, '/');
    FilterAll(parts, RealSegment);
    JoinFreeOf(parts, '/', '\\');
    assert parts[0] <= path;
    assert path[0] == parts[0][0] && path[0] in parts[0];
    if path == ".." {
      SplitWord("..", '/');
      assert false;
    }
  }

  /** Whatever the companion lists, a kept path cannot leave the workspace root. */
  lemma SafeRelPathIsClean(value: string)
    requires SafeRelPath(value) != ""
    ensures CleanPath(SafeRelPath(value))
  {
    var raw := NormalizeInput(value);
    var parts := Filter(Split(raw, '/'), RealSegment);
    assert '\\' !in raw;
    SplitFreeOf(raw, '/', '\\');
    assert CleanSegments(parts) by {
      forall i | 0 <= i < |parts|
        ensures '/' !in parts[i] && '\\' !in parts[i] && RealSegment(parts[i]) && parts[i] != ".."
      {
        assert parts[i] in parts;
      }
    }
  }

  predicate EdgeSpace(path: string) {
    path != "" && (PythonSpace(path[0]) || PythonSpace(path[|path| - 1]))
  }

  /** Sanitising a clean path changes nothing exactly when the path has no white space at either end. */
  lemma CleanPathFixpoint(path: string)
    requires CleanPath(path)
    ensures SafeRelPath(path) == path <==> !EdgeSpace(path)
  {
    CleanPathNonempty(path);
    if Trim(path, PythonSpace) == path {
      CleanTrimmedFixpoint(path);
    } else {
      SafeRelPathShorter(path);
    }
  }

  lemma CleanTrimmedFixpoint(path: string)
    requires CleanPath(path) && Trim(path, PythonSpace) == path
    ensures SafeRelPath(path) == path
  {
    CleanPathNonempty(path);
    assert NormalizeInput(path) == path;
    JoinSplit(path, '/');
  }

  lemma SafeRelPathShorter(path: string)
    ensures |SafeRelPath(path)| <= |Trim(Slashes(path), PythonSpace)|
  {
    var raw := NormalizeInput(path);
    JoinFilterShorter(Split(raw, '/'), '/', RealSegment);
    JoinSplit(raw, '/');
  }

  lemma NormalizeKept(raw: string)
    requires raw != "" && '\\' !in raw && !PythonSpace(raw[0]) && !PythonSpace(raw[|raw| - 1])
    requires |raw| > 1 && raw[1] == '/' ==> raw[0] != '.'
    ensures NormalizeInput(raw) == raw
  {
  }

  lemma DotSegmentKept(name: string)
    requires RealSegment(name) && '/' !in name && '\\' !in name
    requires !PythonSpace(name[0])
    ensures NormalizeInput(name + "/.") == name + "/."
  {
    var raw := name + "/.";
    assert raw[0] == name[0] && raw[|raw| - 1] == '.';
    if |name| == 1 {
      assert name == [name[0]];
    } else {
      assert raw[1] == name[1] && name[1] in name;
    }
    NormalizeKept(raw);
  }

  lemma DotSegmentSplit(name: string)
    requires RealSegment(name) && '/' !in name
    ensures Filter(Split(name + "/.", '/'), RealSegment) == [name]
  {
    assert name + "/." == name + ['/'] + ".";
    SplitPrefix(name, ".", '/');
    SplitWord(".", '/');
    assert [name, "."][1..] == ["."] && ["."][1..] == [];
    assert Filter(["."], RealSegment) == [];
  }

  lemma DotSegmentDropped(name: string)
    requires RealSegment(name) && name != ".." && '/' !in name && '\\' !in name
    requires !PythonSpace(name[0])
    ensures SafeRelPath(name + "/.") == name
  {
    DotSegmentKept(name);
    DotSegmentSplit(name);
    var raw := name + "/.";
    assert raw[0] == name[0] && name[0] in name && raw[0] != '/';
    assert |raw| > 2;
    var parts := [name];
    assert ".." !in parts && Join(parts, '/') == name;
  }

  /** Paths that sanitising changes a second time (`"a /."` gives `"a "`, which gives `"a"`). */
  lemma SafeRelPathNotIdempotent(name: string)
    requires RealSegment(name) && name != ".." && '/' !in name && '\\' !in name
    requires !PythonSpace(name[0]) && PythonSpace(name[|name| - 1])
    ensures SafeRelPath(name + "/.") == name && SafeRelPath(name) != name
  {
    DotSegmentDropped(name);
    SafeRelPathIsClean(name + "/.");
    CleanPathFixpoint(name);
  }

  /** `_safe_file_list_rel_path`: as above, and it also refuses NUL, `.` and drive-letter paths. */
  function SafeListPath(value: string): string {
    var raw := NormalizeInput(value);
    if raw == "" || '\0' in raw || raw[0] == '/' || raw == "." || raw == ".." || (|raw| >= 2 && raw[1] == ':') then ""
    else
      var parts := Filter(Split(raw, '/'), RealSegment);
      if parts == [] || ".." in parts then "" else Join(parts, '/')
  }

  /** The file list is at least as strict as the navigation service, and keeps the same spelling. */
  lemma SafeListPathRefines(value: string)
    ensures SafeListPath(value) != "" ==> SafeListPath(value) == SafeRelPath(value) && '\0' !in SafeListPath(value)
  {
    var raw := NormalizeInput(value);
    var parts := Filter(Split(raw, '/'), RealSegment);
    if SafeListPath(value) != "" {
      SplitFreeOf(raw, '/', '\0');
      assert FreeOf(parts, '\0') by {
        forall i | 0 <= i < |parts| ensures '\0' !in parts[i] { assert parts[i] in parts; }
      }
      JoinFreeOf(parts, '/', '\0');
    }
  }
}
