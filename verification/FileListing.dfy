/**
 The bounded file scan behind the file palette (`_scan_space_file_paths`): a graph search with an
 explicit stack, a visited set and three caps, over listings that may be cyclic or fail.
 */
module FileListing {
  import opened Basics
  import opened RelPath
  import opened Sorting
  import opened Reach

  datatype EntryKind = Directory | Regular | Other

  datatype RawEntry = RawEntry(relPath: string, kind: EntryKind, size: int, mtime: real)

  /** A directory entry with its path sanitised; the empty path marks a refused one. */
  datatype Entry = Entry(path: string, kind: EntryKind, size: int, mtime: real)

  datatype FileInfo = FileInfo(path: string, size: nat, mtime: real)

  datatype Caps = Caps(maxFiles: nat, maxDirs: nat, maxEntries: nat)

  const DEFAULT_CAPS := Caps(5000, 1000, 20000)

  /** The listing reply of each directory, in reading order; None when the request fails. */
  type Listings = string -> Option<seq<Entry>>

  function EntryKey(entry: RawEntry): string {
    entry.relPath
  }

  function Sanitise(entries: seq<RawEntry>): seq<Entry> {
    if entries == [] then []
    else
      var raw := entries[0];
      [Entry(SafeListPath(raw.relPath), raw.kind, raw.size, raw.mtime)] + Sanitise(entries[1..])
  }

  /** How a companion reply is turned into the entries a scan reads. */
  function InReadingOrder(reply: seq<RawEntry>): seq<Entry> {
    Sanitise(Sort(reply, EntryKey))
  }

  function PathKey(file: FileInfo): string {
    file.path
  }

  function InfoOf(entry: Entry): FileInfo {
    FileInfo(entry.path, if entry.size < 0 then 0 else entry.size, entry.mtime)
  }

  predicate Relevant(dir: string, entry: Entry) {
    entry.path != "" && entry.path != dir
  }

  ghost predicate HasSubdirectory(list: Listings, dir: string, sub: string) {
    && list(dir).Some?
    && exists entry :: entry in list(dir).value && Relevant(dir, entry) && entry.kind.Directory? && entry.path == sub
  }

  ghost predicate HasFile(list: Listings, dir: string, file: FileInfo) {
    && list(dir).Some?
    && exists entry :: entry in list(dir).value && Relevant(dir, entry) && entry.kind.Regular? && InfoOf(entry) == file
  }

  ghost function Subdirectories(list: Listings): Edges {
    (dir, sub) => HasSubdirectory(list, dir, sub)
  }

  /** The file can be reached from the root through directories that list successfully. */
  ghost predicate ReachableFile(list: Listings, file: FileInfo) {
    exists dir :: Reachable(Subdirectories(list), dir) && HasFile(list, dir, file)
  }

  /** The growing part of a scan. */
  datatype Found = Found(seenDirs: set<string>, seenFiles: set<string>, files: seq<FileInfo>, scannedEntries: nat,
                         skippedEntries: nat, truncated: bool)

  ghost predicate DistinctFiles(files: seq<FileInfo>) {
    forall i, j :: 0 <= i < j < |files| ==> files[i].path != files[j].path
  }

  ghost predicate WithinCaps(caps: Caps, found: Found) {
    && |found.seenDirs| <= caps.maxDirs && |found.files| <= caps.maxFiles
    && found.scannedEntries <= caps.maxEntries && found.skippedEntries <= found.scannedEntries
    && (found.truncated ==>
          |found.seenDirs| == caps.maxDirs || |found.files| == caps.maxFiles || found.scannedEntries == caps.maxEntries)
    && (!found.truncated ==> |found.files| < caps.maxFiles)
  }

  ghost predicate FilesMatch(found: Found) {
    && DistinctFiles(found.files)
    && (forall i :: 0 <= i < |found.files| ==> found.files[i].path in found.seenFiles)
    && (forall path :: path in found.seenFiles ==> exists i :: 0 <= i < |found.files| && found.files[i].path == path)
  }

  ghost predicate ListsDirectory(dir: string, entries: seq<Entry>, sub: string) {
    exists entry :: entry in entries && Relevant(dir, entry) && entry.kind.Directory? && entry.path == sub
  }

  ghost predicate ListsFile(dir: string, entries: seq<Entry>, file: FileInfo) {
    exists entry :: entry in entries && Relevant(dir, entry) && entry.kind.Regular? && InfoOf(entry) == file
  }

  /** Everything recorded while reading `entries` comes from them. */
  ghost predicate ReadFrom(dir: string, entries: seq<Entry>, before: Found, after: Found, subdirs: seq<string>) {
    && (forall d :: d in after.seenDirs <==> d in before.seenDirs || d in subdirs)
    && Distinct(subdirs)
    && (forall i :: 0 <= i < |subdirs| ==> subdirs[i] !in before.seenDirs && ListsDirectory(dir, entries, subdirs[i]))
    && before.seenFiles <= after.seenFiles
    && |before.files| <= |after.files| && after.files[..|before.files|] == before.files
    && (forall i :: |before.files| <= i < |after.files| ==> ListsFile(dir, entries, after.files[i]))
  }

  /** Nothing relevant in `entries` was missed. */
  ghost predicate ReadAll(dir: string, entries: seq<Entry>, after: Found) {
    forall entry :: entry in entries && Relevant(dir, entry) ==>
      (entry.kind.Directory? ==> entry.path in after.seenDirs)
      && (entry.kind.Regular? ==> entry.path in after.seenFiles)
  }

  /** Reading one more entry keeps what was read, whatever the entry added. */
  lemma ReadMore(dir: string, entries: seq<Entry>, entry: Entry, before: Found, found: Found, after: Found,
                 subdirs: seq<string>, more: seq<string>)
    requires ReadFrom(dir, entries, before, found, subdirs)
    requires OneEntry(dir, entry, found, after, subdirs, more)
    ensures ReadFrom(dir, entries + [entry], before, after, more)
    ensures !after.truncated && ReadAll(dir, entries, found) ==> ReadAll(dir, entries + [entry], after)
  {
    var longer := entries + [entry];
    forall sub | ListsDirectory(dir, entries, sub) ensures ListsDirectory(dir, longer, sub) {
      var e :| e in entries && Relevant(dir, e) && e.kind.Directory? && e.path == sub;
      assert e in longer;
    }
    forall file | ListsFile(dir, entries, file) ensures ListsFile(dir, longer, file) {
      var e :| e in entries && Relevant(dir, e) && e.kind.Regular? && InfoOf(e) == file;
      assert e in longer;
    }
    assert entry in longer;
    assert Relevant(dir, entry) && entry.kind.Directory? ==> ListsDirectory(dir, longer, entry.path);
    assert Relevant(dir, entry) && entry.kind.Regular? ==> ListsFile(dir, longer, InfoOf(entry));
  }

  /** What one entry may change: at most one new subdirectory or one new file, its own. */
  ghost predicate OneEntry(dir: string, entry: Entry, found: Found, after: Found, subdirs: seq<string>,
                           more: seq<string>)
  {
    && ((after.seenDirs == found.seenDirs && more == subdirs) ||
        (entry.path !in found.seenDirs && Relevant(dir, entry) && entry.kind.Directory? &&
         after.seenDirs == found.seenDirs + {entry.path} && more == subdirs + [entry.path]))
    && ((after.files == found.files && after.seenFiles == found.seenFiles) ||
        (Relevant(dir, entry) && entry.kind.Regular? && after.files == found.files + [InfoOf(entry)] &&
         after.seenFiles == found.seenFiles + {entry.path}))
    && (!after.truncated && Relevant(dir, entry) ==>
          (entry.kind.Directory? ==> entry.path in after.seenDirs)
          && (entry.kind.Regular? ==> entry.path in after.seenFiles))
  }

  method ReadEntry(caps: Caps, dir: string, entry: Entry, before: Found, subdirs: seq<string>)
    returns (found: Found, more: seq<string>)
    requires WithinCaps(caps, before) && FilesMatch(before) && !before.truncated
    ensures WithinCaps(caps, found) && FilesMatch(found) && OneEntry(dir, entry, before, found, subdirs, more)
  {
    found, more := before, subdirs;
    if found.scannedEntries >= caps.maxEntries {
      found := found.(truncated := true);
      return;
    }
    found := found.(scannedEntries := found.scannedEntries + 1);
    if !Relevant(dir, entry) || entry.kind.Other? {
      found := found.(skippedEntries := found.skippedEntries + 1);
    } else if entry.kind.Directory? {
      if entry.path !in found.seenDirs {
        if |found.seenDirs| >= caps.maxDirs {
          found := found.(truncated := true);
        } else {
          found := found.(seenDirs := found.seenDirs + {entry.path});
          more := subdirs + [entry.path];
        }
      }
    } else if entry.path !in found.seenFiles {
      var files := found.files + [InfoOf(entry)];
      found := found.(seenFiles := found.seenFiles + {entry.path}, files := files,
                      truncated := |files| >= caps.maxFiles);
      FileAdded(before, found);
    }
  }

  /** The inner loop of the scan: read the entries of one directory until done or cut by a cap. */
  method ReadDirectory(caps: Caps, dir: string, entries: seq<Entry>, before: Found)
    returns (found: Found, subdirs: seq<string>)
    requires WithinCaps(caps, before) && FilesMatch(before) && !before.truncated
    ensures WithinCaps(caps, found) && FilesMatch(found)
    ensures ReadFrom(dir, entries, before, found, subdirs)
    ensures !found.truncated ==> ReadAll(dir, entries, found)
  {
    found, subdirs := before, [];
    var i := 0;
    while i < |entries| && !found.truncated
      invariant i <= |entries|
      invariant WithinCaps(caps, found) && FilesMatch(found)
      invariant ReadFrom(dir, entries[..i], before, found, subdirs)
      invariant !found.truncated ==> ReadAll(dir, entries[..i], found)
    {
      ghost var last, lastSubdirs := found, subdirs;
      assert entries[..i + 1] == entries[..i] + [entries[i]];
      found, subdirs := ReadEntry(caps, dir, entries[i], found, subdirs);
      ReadMore(dir, entries[..i], entries[i], before, last, found, lastSubdirs, subdirs);
      i := i + 1;
    }
    ReadPrefix(dir, entries, i, before, found, subdirs);
    assert i == |entries| ==> entries[..i] == entries;
  }

  lemma FileAdded(before: Found, after: Found)
    requires FilesMatch(before) && |after.files| == |before.files| + 1 && after.files[..|before.files|] == before.files
    requires after.files[|before.files|].path !in before.seenFiles
    requires after.seenFiles == before.seenFiles + {after.files[|before.files|].path}
    ensures FilesMatch(after)
  {
    forall path | path in after.seenFiles ensures exists i :: 0 <= i < |after.files| && after.files[i].path == path {
      if path in before.seenFiles {
        var i :| 0 <= i < |before.files| && before.files[i].path == path;
        assert after.files[i] == before.files[i];
      }
    }
    forall i | 0 <= i < |before.files| ensures after.files[i] == before.files[i] {
      assert after.files[..|before.files|][i] == before.files[i];
    }
  }

  lemma ReadPrefix(dir: string, entries: seq<Entry>, i: nat, before: Found, found: Found, subdirs: seq<string>)
    requires i <= |entries| && ReadFrom(dir, entries[..i], before, found, subdirs)
    ensures ReadFrom(dir, entries, before, found, subdirs)
  {
    forall sub | ListsDirectory(dir, entries[..i], sub) ensures ListsDirectory(dir, entries, sub) {
      var e :| e in entries[..i] && Relevant(dir, e) && e.kind.Directory? && e.path == sub;
    }
    forall file | ListsFile(dir, entries[..i], file) ensures ListsFile(dir, entries, file) {
      var e :| e in entries[..i] && Relevant(dir, e) && e.kind.Regular? && InfoOf(e) == file;
    }
  }

  /**
   The state of the search: `done` are the directories listed (or tried) so far, the stack holds the
   rest of the seen ones, and all of it is reachable.
   */
  ghost predicate Searching(list: Listings, stack: seq<string>, done: set<string>, found: Found) {
    && Distinct(stack)
    && (forall i :: 0 <= i < |stack| ==> stack[i] in found.seenDirs && stack[i] !in done)
    && (forall dir :: dir in found.seenDirs ==> dir in done || dir in stack)
    && done <= found.seenDirs && "" in found.seenDirs
    && (forall dir :: dir in found.seenDirs ==> Reachable(Subdirectories(list), dir))
    && (forall i :: 0 <= i < |found.files| ==> ReachableFile(list, found.files[i]))
  }

  ghost predicate Complete(list: Listings, done: set<string>, found: Found) {
    forall dir :: dir in done && list(dir).Some? ==> ReadAll(dir, list(dir).value, found)
  }

  function Reversed<T>(s: seq<T>): seq<T> {
    seq(|s|, i requires 0 <= i < |s| => s[|s| - 1 - i])
  }

  lemma LastOfDistinct<T>(s: seq<T>)
    requires Distinct(s) && s != []
    ensures var rest, last := s[..|s| - 1], s[|s| - 1];
            Distinct(rest) && last !in rest && forall x :: x in s <==> x in rest || x == last
  {
    assert s == s[..|s| - 1] + [s[|s| - 1]];
  }

  lemma PopDirectory(list: Listings, stack: seq<string>, done: set<string>, found: Found)
    requires Searching(list, stack, done, found) && stack != []
    ensures stack[|stack| - 1] in found.seenDirs && stack[|stack| - 1] !in done
    ensures Searching(list, stack[..|stack| - 1], done + {stack[|stack| - 1]}, found)
    ensures |done| < |found.seenDirs| && |done + {stack[|stack| - 1]}| == |done| + 1
  {
    var top := stack[|stack| - 1];
    LastOfDistinct(stack);
    assert top in stack;
    SubsetSize(done + {top}, found.seenDirs);
  }

  lemma ReadIsReachable(list: Listings, before: Found, after: Found, dir: string, subdirs: seq<string>)
    requires list(dir).Some? && Reachable(Subdirectories(list), dir)
    requires ReadFrom(dir, list(dir).value, before, after, subdirs)
    requires forall i :: 0 <= i < |before.files| ==> ReachableFile(list, before.files[i])
    ensures forall d :: d in subdirs ==> Reachable(Subdirectories(list), d)
    ensures forall i :: 0 <= i < |after.files| ==> ReachableFile(list, after.files[i])
  {
    forall d | d in subdirs ensures Reachable(Subdirectories(list), d) {
      assert HasSubdirectory(list, dir, d);
      StepReachable(Subdirectories(list), dir, d);
    }
    forall i | 0 <= i < |after.files| ensures ReachableFile(list, after.files[i]) {
      if i < |before.files| {
        assert after.files[..|before.files|][i] == before.files[i];
      } else {
        assert HasFile(list, dir, after.files[i]);
      }
    }
  }

  lemma PushDirectories(list: Listings, stack: seq<string>, done: set<string>, before: Found, after: Found, dir: string,
                        subdirs: seq<string>)
    requires Searching(list, stack, done, before) && list(dir).Some? && Reachable(Subdirectories(list), dir)
    requires ReadFrom(dir, list(dir).value, before, after, subdirs)
    ensures Searching(list, stack + Reversed(subdirs), done, after)
  {
    var more := Reversed(subdirs);
    forall d | d in subdirs ensures d in more {
      var i :| 0 <= i < |subdirs| && subdirs[i] == d;
      assert more[|subdirs| - 1 - i] == d;
    }
    ReadIsReachable(list, before, after, dir, subdirs);
  }

  datatype FileList = FileList(files: seq<FileInfo>, truncated: bool, scannedDirs: nat, scannedEntries: nat,
                               skippedDirs: nat, skippedEntries: nat)

  ghost predicate StrictlySorted(files: seq<FileInfo>) {
    forall i, j :: 0 <= i < j < |files| ==> LexLeq(files[i].path, files[j].path) && files[i].path != files[j].path
  }

  /** What a scan promises, for any listing function; `seen` are the directories it came across. */
  ghost predicate Correct(caps: Caps, list: Listings, result: FileList, seen: set<string>) {
    && StrictlySorted(result.files)
    && (forall i :: 0 <= i < |result.files| ==> ReachableFile(list, result.files[i]))
    && (forall dir :: dir in seen ==> Reachable(Subdirectories(list), dir))
    && |result.files| <= caps.maxFiles && |seen| <= caps.maxDirs && result.scannedEntries <= caps.maxEntries
    && result.skippedDirs <= result.scannedDirs <= |seen| && result.skippedEntries <= result.scannedEntries
    && (result.truncated ==>
          |result.files| == caps.maxFiles || |seen| == caps.maxDirs || result.scannedEntries == caps.maxEntries)
    && (!result.truncated ==> result.scannedDirs == |seen| && Exhaustive(list, result.files, seen))
  }

  /** Nothing reachable is missing. */
  ghost predicate Exhaustive(list: Listings, files: seq<FileInfo>, seen: set<string>) {
    && (forall dir :: Reachable(Subdirectories(list), dir) ==> dir in seen)
    && (forall file :: ReachableFile(list, file) ==> exists i :: 0 <= i < |files| && files[i].path == file.path)
  }

  lemma CompleteIsExhaustive(list: Listings, done: set<string>, found: Found, stack: seq<string>)
    requires Searching(list, stack, done, found) && stack == [] && Complete(list, done, found) && FilesMatch(found)
    ensures Exhaustive(list, found.files, found.seenDirs)
  {
    var edges := Subdirectories(list);
    forall from, to | from in done && edges(from, to) ensures to in done {
      assert ReadAll(from, list(from).value, found);
      assert HasSubdirectory(list, from, to);
    }
    forall dir | Reachable(edges, dir) ensures dir in done && dir in found.seenDirs {
      ClosedSetCovers(edges, done, dir);
    }
    forall file | ReachableFile(list, file)
      ensures exists i :: 0 <= i < |found.files| && found.files[i].path == file.path
    {
      var dir :| Reachable(edges, dir) && HasFile(list, dir, file);
      assert ReadAll(dir, list(dir).value, found);
      assert file.path in found.seenFiles;
    }
  }

  /** Having read `current` as well, nothing was missed in the directories listed so far. */
  lemma CompleteGrows(list: Listings, done: set<string>, current: string, before: Found, after: Found,
                      subdirs: seq<string>)
    requires Complete(list, done, before) && list(current).Some?
    requires ReadFrom(current, list(current).value, before, after, subdirs)
    requires ReadAll(current, list(current).value, after)
    ensures Complete(list, done + {current}, after)
  {
    forall dir | dir in done && list(dir).Some? ensures ReadAll(dir, list(dir).value, after) {
      assert ReadAll(dir, list(dir).value, before);
    }
  }

  lemma SortedFiles(files: seq<FileInfo>)
    requires DistinctFiles(files)
    ensures StrictlySorted(Sort(files, PathKey)) && |Sort(files, PathKey)| == |files|
    ensures forall file :: file in Sort(files, PathKey) <==> file in files
  {
    SortSorted(files, PathKey);
    SortPermutes(files, PathKey);
    assert DistinctKeys(files, PathKey);
    SortDistinct(files, PathKey);
  }

  lemma ReorderedExhaustive(list: Listings, files: seq<FileInfo>, sorted: seq<FileInfo>, seen: set<string>)
    requires Exhaustive(list, files, seen) && forall file :: file in files ==> file in sorted
    ensures Exhaustive(list, sorted, seen)
  {
    forall file | ReachableFile(list, file) ensures exists i :: 0 <= i < |sorted| && sorted[i].path == file.path {
      var i :| 0 <= i < |files| && files[i].path == file.path;
      assert files[i] in sorted;
    }
  }

  /** The search loop; None stands for the error raised when the root cannot be listed. */
  method Search(caps: Caps, list: Listings)
    returns (result: Option<Found>, scannedDirs: nat, skippedDirs: nat, ghost done: set<string>,
             ghost stack: seq<string>)
    requires caps.maxFiles > 0 && caps.maxDirs > 0 && caps.maxEntries > 0
    ensures result.None? <==> list("").None?
    ensures result.Some? ==>
              WithinCaps(caps, result.value) && FilesMatch(result.value) && Searching(list, stack, done, result.value)
    ensures result.Some? ==> scannedDirs == |done| && skippedDirs <= scannedDirs
    ensures result.Some? && !result.value.truncated ==> stack == [] && Complete(list, done, result.value)
  {
    var found := Found({""}, {}, [], 0, 0, false);
    var dirs := [""];
    scannedDirs, skippedDirs, done := 0, 0, {};
    RootReachable(Subdirectories(list));
    while dirs != [] && !found.truncated
      invariant WithinCaps(caps, found) && FilesMatch(found)
      invariant Searching(list, dirs, done, found)
      invariant !found.truncated ==> Complete(list, done, found)
      invariant scannedDirs == |done| && skippedDirs <= scannedDirs
      invariant if "" in done then list("").Some? else dirs == [""] && !found.truncated
      decreases caps.maxDirs - |done|
    {
      var current := dirs[|dirs| - 1];
      PopDirectory(list, dirs, done, found);
      dirs := dirs[..|dirs| - 1];
      if scannedDirs >= caps.maxDirs {
        assert false;  // every directory popped was counted among the seen ones
      }
      scannedDirs := scannedDirs + 1;
      var reply := list(current);
      if reply.None? {
        if current == "" {
          return None, scannedDirs, skippedDirs, done, dirs;
        }
        done := done + {current};
        skippedDirs := skippedDirs + 1;
        continue;
      }
      ghost var before := found;
      var subdirs;
      found, subdirs := ReadDirectory(caps, current, reply.value, found);
      PushDirectories(list, dirs, done + {current}, before, found, current, subdirs);
      if !found.truncated {
        CompleteGrows(list, done, current, before, found, subdirs);
      }
      done := done + {current};
      dirs := dirs + Reversed(subdirs);
    }
    result, stack := Some(found), dirs;
  }

  /** Sorting what the search found, complete or not, gives a correct result. */
  lemma SearchedIsCorrect(caps: Caps, list: Listings, found: Found, done: set<string>, stack: seq<string>,
                          result: FileList)
    requires WithinCaps(caps, found) && FilesMatch(found) && Searching(list, stack, done, found)
    requires !found.truncated ==> stack == [] && Complete(list, done, found)
    requires result.files == Sort(found.files, PathKey) && result.truncated == found.truncated
    requires result.skippedDirs <= result.scannedDirs == |done|
    requires result.scannedEntries == found.scannedEntries && result.skippedEntries == found.skippedEntries
    ensures Correct(caps, list, result, found.seenDirs)
  {
    SortedFiles(found.files);
    SubsetSize(done, found.seenDirs);
    if !found.truncated {
      CompleteIsExhaustive(list, done, found, stack);
      ReorderedExhaustive(list, found.files, result.files, found.seenDirs);
      assert done == found.seenDirs;
    }
    forall i | 0 <= i < |result.files| ensures ReachableFile(list, result.files[i]) {
      assert result.files[i] in found.files;
    }
  }

  /** `_scan_space_file_paths`. */
  method ScanFilePaths(caps: Caps, list: Listings) returns (result: Option<FileList>, ghost seen: set<string>)
    requires caps.maxFiles > 0 && caps.maxDirs > 0 && caps.maxEntries > 0
    ensures result.None? <==> list("").None?
    ensures result.Some? ==> Correct(caps, list, result.value, seen)
  {
    var search, scannedDirs, skippedDirs;
    ghost var done, stack;
    search, scannedDirs, skippedDirs, done, stack := Search(caps, list);
    if search.None? {
      return None, {};
    }
    var found := search.value;
    var files := Sort(found.files, PathKey);
    seen := found.seenDirs;
    result := Some(FileList(files, found.truncated, scannedDirs, found.scannedEntries, skippedDirs,
                            found.skippedEntries));
    SearchedIsCorrect(caps, list, found, done, stack, result.value);
  }

  /** A relative path that cannot leave the workspace root. */
  ghost predicate SafePath(path: string) {
    CleanPath(path) && '\0' !in path
  }

  lemma {:induction false} SanitisedAreSafe(reply: seq<RawEntry>)
    ensures forall entry :: entry in Sanitise(reply) ==> entry.path == "" || SafePath(entry.path)
  {
    if reply == [] {
    } else {
      SanitisedAreSafe(reply[1..]);
      SafeListPathRefines(reply[0].relPath);
      if SafeListPath(reply[0].relPath) != "" {
        SafeRelPathIsClean(reply[0].relPath);
      }
    }
  }

  /** The listings are those that a companion's replies give. */
  ghost predicate Standard(list: Listings, reply: string -> Option<seq<RawEntry>>) {
    forall dir :: list(dir) == if reply(dir).None? then None else Some(InReadingOrder(reply(dir).value))
  }

  ghost predicate ListsSafely(list: Listings) {
    forall dir, entry :: list(dir).Some? && entry in list(dir).value ==> entry.path == "" || SafePath(entry.path)
  }

  lemma StandardListsSafely(list: Listings, reply: string -> Option<seq<RawEntry>>)
    requires Standard(list, reply)
    ensures ListsSafely(list)
  {
    forall dir, entry | list(dir).Some? && entry in list(dir).value ensures entry.path == "" || SafePath(entry.path) {
      SanitisedAreSafe(Sort(reply(dir).value, EntryKey));
    }
  }

  lemma ReachableIsSafe(list: Listings, dir: string)
    requires ListsSafely(list) && Reachable(Subdirectories(list), dir)
    ensures dir == "" || SafePath(dir)
  {
    if dir != "" {
      var from := ReachedFrom(Subdirectories(list), dir);
      assert HasSubdirectory(list, from, dir);
    }
  }

  /** Whatever the companion replies, a scan neither lists a file nor asks for a directory outside the root. */
  lemma ScanStaysInside(caps: Caps, list: Listings, reply: string -> Option<seq<RawEntry>>, result: FileList,
                        seen: set<string>)
    requires Standard(list, reply) && Correct(caps, list, result, seen)
    ensures forall i :: 0 <= i < |result.files| ==> SafePath(result.files[i].path)
    ensures forall dir :: dir in seen ==> dir == "" || SafePath(dir)
  {
    StandardListsSafely(list, reply);
    CorrectIsSafe(caps, list, result, seen);
  }

  lemma CorrectIsSafe(caps: Caps, list: Listings, result: FileList, seen: set<string>)
    requires ListsSafely(list) && Correct(caps, list, result, seen)
    ensures forall i :: 0 <= i < |result.files| ==> SafePath(result.files[i].path)
    ensures forall dir :: dir in seen ==> dir == "" || SafePath(dir)
  {
    forall i | 0 <= i < |result.files| ensures SafePath(result.files[i].path) {
      var dir :| HasFile(list, dir, result.files[i]);
    }
    forall dir | dir in seen ensures dir == "" || SafePath(dir) {
      ReachableIsSafe(list, dir);
    }
  }
}
