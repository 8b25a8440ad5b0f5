/** Clean paths whose written reference opens another file: paths with white space or a long extension. */
module MistakenReferences {
  import opened Basics
  import opened Text
  import opened WorkspacePaths
  import opened FileReferences
  import opened Stripping
  import opened ReferenceSearch
  import opened ReferenceParts
  import opened ReferenceRoundTrip
  import opened MessageRoundTrip

  lemma {:induction false} SearchSkips(s: string, i: nat, m: nat, ends: nat -> Option<nat>, clean: string -> string)
    requires i <= m <= |s| && forall j: nat :: i <= j < m ==> !IsMatch(s, j, ends(j))
    ensures ExtractFrom(s, i, ends, clean) == ExtractFrom(s, m, ends, clean)
    decreases m - i
  {
    if i == m {
    } else {
      SearchSkips(s, i + 1, m, ends, clean);
    }
  }

  /** If the first match is at `m` and is kept, it is the first candidate. */
  lemma FirstFound(s: string, m: nat, ends: nat -> Option<nat>, clean: string -> string)
    requires m < |s| && forall j: nat :: j < m ==> !IsMatch(s, j, ends(j))
    requires IsMatch(s, m, ends(m)) && clean(s[m..ends(m).value]) != ""
    ensures var found := ExtractFrom(s, 0, ends, clean);
            found != [] && found[0] == clean(s[m..ends(m).value])
  {
    SearchSkips(s, 0, m, ends, clean);
  }

  lemma FirstExtracted(s: string, m: nat, end: nat) returns (first: string)
    requires m < end <= |s| && MatchEnd(s, m) == Some(end) && Strip(s[m..end]) != ""
    requires forall j: nat :: j < m ==> MatchEnd(s, j).None?
    ensures Extract(s) != [] && Extract(s)[0] == first == Strip(s[m..end])
  {
    first := Strip(s[m..end]);
    FirstFound(s, m, Ends(s), Stripper());
  }

  /** A run that is known to end where its last character is. */
  lemma {:induction false} RunIs(s: string, i: nat, end: nat, isIn: char -> bool)
    requires i <= end <= |s| && (end < |s| ==> !isIn(s[end])) && forall k :: i <= k < end ==> isIn(s[k])
    ensures RunEnd(s, i, isIn) == end
    decreases end - i
  {
    if i == end {
    } else {
      RunIs(s, i + 1, end, isIn);
    }
  }

  lemma {:induction false} NoDot(s: string, i: nat, p: nat)
    requires p < |s| && forall k :: i < k <= p ==> s[k] != '.'
    ensures LastDot(s, i, p).None?
    decreases p
  {
    if p > i {
      NoDot(s, i, p - 1);
    }
  }

  /** Names without a dot, followed by something that is no slash, do not match. */
  lemma NameIsNoMatch(s: string, i: nat, end: nat)
    requires i <= end < |s| && !IsNamePart(s[end]) && s[end] != '/' && !HasDoubleSlash(s)
    requires forall k :: i <= k < end ==> IsNamePart(s[k]) && s[k] != '.'
    ensures MatchEnd(s, i).None?
  {
    NoAddressInside(s, i);
    RunIs(s, i, end, IsNamePart);
    if i < end {
      NoDot(s, i, end - 1);
    }
  }

  /** Up to the white space before `m` nothing matches. */
  lemma NothingBefore(s: string, m: nat)
    requires 1 <= m <= |s| && s[m - 1] == ' ' && !HasDoubleSlash(s)
    requires forall k :: 0 <= k < m - 1 ==> IsNamePart(s[k]) && s[k] != '.'
    ensures forall j: nat :: j < m ==> MatchEnd(s, j).None?
  {
    forall j: nat | j < m ensures MatchEnd(s, j).None? {
      NameIsNoMatch(s, j, m - 1);
    }
  }

  /** From `m` on a name, a slash and the rest match. */
  lemma RestMatches(s: string, m: nat, slash: nat)
    requires m <= slash && slash + 1 < |s| && s[slash] == '/' && !HasDoubleSlash(s)
    requires forall k :: m <= k < slash ==> IsNamePart(s[k])
    requires forall k :: slash < k < |s| ==> GoesOn(s[k])
    ensures MatchEnd(s, m) == Some(|s|)
  {
    NoAddressInside(s, m);
    RunIs(s, m, slash, IsNamePart);
    RunToEnd(s, slash + 1, GoesOn);
  }

  /** The name of a directory, a slash, and characters that end no candidate. */
  ghost predicate IsFound(path: string, slash: nat) {
    && slash + 1 < |path| && path[slash] == '/'
    && (forall k :: 0 <= k < slash ==> IsNamePart(path[k]))
    && (forall k :: slash < k < |path| ==> GoesOn(path[k]))
  }

  ghost predicate IsWord(word: string) {
    word != "" && forall k :: 0 <= k < |word| ==> IsNameChar(word[k])
  }

  lemma LineGoesOn(line: Option<nat>)
    ensures forall k :: 0 <= k < |Suffix(line)| ==> GoesOn(Suffix(line)[k])
  {
    var suffix := Suffix(line);
    LineOf(line);
    forall k | 0 <= k < |suffix| ensures GoesOn(suffix[k]) {
      assert k >= 2 ==> IsDigit(suffix[k]);
    }
  }

  lemma FirstWhole(s: string, m: nat, rest: string)
    requires m < |s| && s[m..] == rest && Strip(rest) == rest
    requires MatchEnd(s, m) == Some(|s|) && forall j: nat :: j < m ==> MatchEnd(s, j).None?
    ensures Extract(s) != [] && Extract(s)[0] == rest
  {
    assert s[m..|s|] == rest;
    var first := FirstExtracted(s, m, |s|);
  }

  lemma SpacedMatches(text: string, m: nat, left: string, right: string, suffix: string, slash: nat)
    requires IsWord(left) && IsFound(right, slash) && m == |left| + 2 <= |text| && !HasDoubleSlash(text)
    requires text[..m] == "@" + left + " " && text[m..] == right + suffix
    requires forall k :: 0 <= k < |suffix| ==> GoesOn(suffix[k])
    ensures m < |text| && MatchEnd(text, m) == Some(|text|) && forall j: nat :: j < m ==> MatchEnd(text, j).None?
  {
    SpacedChars(text, m, left, right, suffix, slash);
    NothingBefore(text, m);
    RestMatches(text, m, m + slash);
  }

  lemma SpacedSplit(text: string, left: string, right: string, suffix: string)
    requires text == ("@" + (left + " " + right)) + suffix
    ensures var m := |left| + 2; m <= |text| && text[..m] == "@" + left + " " && text[m..] == right + suffix
  {
    var start, rest := "@" + left + " ", right + suffix;
    assert text == start + rest;
  }

  /** What the search finds in a reference to a path with a space: what comes after the space. */
  lemma SpacedExtract(text: string, left: string, right: string, suffix: string, slash: nat)
    requires IsWord(left) && IsFound(right, slash) && !HasDoubleSlash(text)
    requires text == ("@" + (left + " " + right)) + suffix && Strip(right + suffix) == right + suffix
    requires forall k :: 0 <= k < |suffix| ==> GoesOn(suffix[k])
    ensures Extract(text) != [] && Extract(text)[0] == right + suffix
  {
    SpacedSplit(text, left, right, suffix);
    SpacedMatches(text, |left| + 2, left, right, suffix, slash);
    FirstWhole(text, |left| + 2, right + suffix);
  }

  lemma SpacedChars(text: string, m: nat, left: string, right: string, suffix: string, slash: nat)
    requires IsWord(left) && IsFound(right, slash) && m == |left| + 2 <= |text|
    requires text[..m] == "@" + left + " " && text[m..] == right + suffix
    requires forall k :: 0 <= k < |suffix| ==> GoesOn(suffix[k])
    ensures text[m - 1] == ' ' && forall k :: 0 <= k < m - 1 ==> IsNamePart(text[k]) && text[k] != '.'
    ensures m + slash + 1 < |text| && text[m + slash] == '/'
    ensures forall k :: m <= k < m + slash ==> IsNamePart(text[k])
    ensures forall k :: m + slash < k < |text| ==> GoesOn(text[k])
  {
    var start := text[..m];
    assert start[m - 1] == ' ';
    forall k | 0 <= k < m - 1 ensures IsNamePart(text[k]) && text[k] != '.' {
      assert text[k] == start[k] && (k > 0 ==> start[k] == left[k - 1]);
    }
    var rest := right + suffix;
    assert forall k :: m <= k < |text| ==> text[k] == rest[k - m];
    forall k | m + slash < k < |text| ensures GoesOn(text[k]) {
      assert rest[k - m] == if k - m < |right| then right[k - m] else suffix[k - m - |right|];
    }
  }

  /** A readable path followed by a line is read as such. */
  lemma UnmarkedReads(path: string, line: Option<nat>, host: Host)
    requires IsClean(path) && IsReadable(path, line)
    ensures ParseSingle(path + Suffix(Written(line)), host) == Some(Reference(path, Written(line), None))
    ensures Strip(path + Suffix(Written(line))) == path + Suffix(Written(line))
  {
    var value := path + Suffix(Written(line));
    PlainIsNoAddress(path, Written(line));
    BareKeepsItself(value);
    BareIsFixed(value);
    SplitWritten(path, Written(line));
    BareKeepsItself(path);
    ParseStripped(value, value, host);
  }

  lemma SpacedIsPlain(left: string, right: string)
    requires IsWord(left) && IsBare(right)
    ensures IsBare(left + " " + right) && HasSpace(left + " " + right)
  {
    var path := left + " " + right;
    assert path[0] == left[0] && path[|path| - 1] == right[|right| - 1] && path[|left|] == ' ';
  }

  /** The reference to a file in a directory such as `my dir` opens the file of that name in `dir`. */
  lemma SpaceOpensAnother(left: string, right: string, slash: nat, line: Option<nat>, rootPath: string, host: Host)
    requires IsClean(left + " " + right) && IsWord(left) && IsFound(right, slash)
    requires IsClean(right) && IsReadable(right, line)
    ensures FromMessage(Message("", "", Format(left + " " + right, line), None, None), rootPath, host)
         == Some(Reference(right, Written(line), None))
  {
    var path := left + " " + right;
    SpacedIsPlain(left, right);
    TerminalReadsRest(left, right, slash, line, host);
    WrittenIsTrimmed(path, line);
    PlainIsRelative(right, rootPath);
    MessageReads(Format(path, line), Reference(right, Written(line), None),
                 Message("", "", Format(path, line), None, None), rootPath, host);
  }

  lemma TerminalReadsRest(left: string, right: string, slash: nat, line: Option<nat>, host: Host)
    requires IsClean(left + " " + right) && IsWord(left) && IsFound(right, slash)
    requires IsClean(right) && IsReadable(right, line)
    ensures ParseTerminal(Format(left + " " + right, line), host) == Some(Reference(right, Written(line), None))
  {
    var path := left + " " + right;
    SpacedIsPlain(left, right);
    var trimmed, suffix := WrittenText(path, line);
    TrimShrinks(path);
    LineGoesOn(Written(line));
    UnmarkedReads(right, line, host);
    SpacedExtract(Format(path, line), left, right, suffix, slash);
    WrittenReadsItself(path, line);
    ParseTerminalOf(Format(path, line), host);
    FirstParsedFirst(Extract(Format(path, line)), host);
  }

  lemma FirstParsedFirst(candidates: seq<string>, host: Host)
    requires candidates != []
    ensures ParseSingle(candidates[0], host).Some? ==> FirstParsed(candidates, host) == ParseSingle(candidates[0], host)
  {
  }

  /** A name with one dot and an extension that is too long. */
  ghost predicate IsOverlong(name: string, extension: string) {
    IsWord(name) && IsWord(extension) && |extension| > 16
  }

  lemma OverlongChars(text: string, name: string, extension: string, suffix: string)
    requires IsOverlong(name, extension) && IsLine(suffix) && text == ("@" + (name + "." + extension)) + suffix
    ensures var dot, end := |name| + 1, |name| + 2 + |extension|;
            && end <= |text| && text[dot] == '.' && text[0] == '@'
            && (forall k :: 0 < k < dot ==> IsNameChar(text[k])) && (forall k :: dot < k < end ==> IsNameChar(text[k]))
            && (end < |text| ==> text[end] == '#')
  {
    var path := name + "." + extension;
    forall k | 0 < k <= |path| ensures text[k] == path[k - 1] {
    }
  }

  lemma {:induction false} DotIs(s: string, i: nat, dot: nat, p: nat)
    requires i < dot <= p < |s| && dot + 1 < |s| && s[dot] == '.' && IsNameChar(s[dot + 1])
    requires forall k :: dot < k <= p ==> s[k] != '.'
    ensures LastDot(s, i, p) == Some(dot)
    decreases p
  {
    if p > dot {
      DotIs(s, i, dot, p - 1);
    }
  }

  lemma OverlongNamed(s: string, dot: nat, end: nat)
    requires 0 < dot && dot + 17 < end <= |s| && RunEnd(s, 0, IsNamePart) == end && LastDot(s, 0, end - 1) == Some(dot)
    requires RunEnd(s, dot + 1, IsNameChar) == end && IsNameChar(s[dot + 17])
    ensures NamedEnd(s, 0) == Some(dot + 17)
  {
    assert s[dot + 17] != ':' && s[dot + 17] != '#';
  }

  lemma OverlongRuns(s: string, dot: nat, end: nat)
    requires 0 < dot && dot + 17 < end <= |s| && s[dot] == '.' && s[0] == '@'
    requires forall k :: 0 < k < dot ==> IsNameChar(s[k])
    requires forall k :: dot < k < end ==> IsNameChar(s[k])
    requires end < |s| ==> s[end] == '#'
    ensures RunEnd(s, 0, IsNamePart) == end && LastDot(s, 0, end - 1) == Some(dot)
    ensures RunEnd(s, dot + 1, IsNameChar) == end
  {
    RunIs(s, 0, end, IsNamePart);
    DotIs(s, 0, dot, end - 1);
    RunIs(s, dot + 1, end, IsNameChar);
  }

  lemma OverlongMatches(s: string, dot: nat, end: nat)
    requires 0 < dot && dot + 17 < end <= |s| && s[dot] == '.' && s[0] == '@' && !HasDoubleSlash(s)
    requires forall k :: 0 < k < dot ==> IsNameChar(s[k])
    requires forall k :: dot < k < end ==> IsNameChar(s[k])
    requires end < |s| ==> s[end] == '#'
    ensures MatchEnd(s, 0) == Some(dot + 17)
  {
    NoAddressInside(s, 0);
    OverlongRuns(s, dot, end);
    OverlongNamed(s, dot, end);
    assert SlashedEnd(s, 0).None?;
  }

  lemma {:induction false} NoLineFrom(path: string, i: nat)
    requires i <= |path| && '#' !in path && ':' !in path
    ensures FindAnchor(path, i).None? && FindSuffix(path, i).None?
    decreases |path| - i
  {
    if i == |path| {
    } else {
      assert path[i] in path;
      NoLineFrom(path, i + 1);
    }
  }

  lemma DottedChars(path: string, name: string, extension: string)
    requires IsWord(name) && IsWord(extension) && path == name + "." + extension
    ensures |path| >= 3 && path[0] != '@' && IsNameChar(path[0]) && IsNameChar(path[|path| - 1])
    ensures forall k :: 0 <= k < |path| ==> IsNamePart(path[k])
  {
    forall k | 0 <= k < |path| ensures IsNamePart(path[k]) {
      assert path[k] == if k < |name| then name[k] else if k == |name| then '.' else extension[k - |name| - 1];
    }
    assert path[0] == name[0] && path[|path| - 1] == extension[|extension| - 1];
  }

  lemma NamePartsAreClean(path: string)
    requires |path| >= 3 && forall k :: 0 <= k < |path| ==> IsNamePart(path[k])
    ensures IsClean(path) && '/' !in path && '#' !in path && ':' !in path
  {
    SplitWord(path, '/');
  }

  lemma NamePartsAreNoSpace(path: string)
    requires forall k :: 0 <= k < |path| ==> IsNamePart(path[k])
    ensures !HasSpace(path)
  {
  }

  lemma NameCharsAreBare(path: string)
    requires path != "" && IsNameChar(path[0]) && IsNameChar(path[|path| - 1])
    ensures IsBare(path)
  {
  }

  /** A name with a dot and an extension is a bare, clean path without a line. */
  lemma DottedIsPlain(name: string, extension: string)
    requires IsWord(name) && IsWord(extension)
    ensures var path := name + "." + extension;
            IsPlain(path) && path[0] != '@' && HasNoLine(path) && !HasSpace(path) && '/' !in path
  {
    var path := name + "." + extension;
    DottedChars(path, name, extension);
    NamePartsAreClean(path);
    NamePartsAreNoSpace(path);
    NameCharsAreBare(path);
    NoLineFrom(path, 0);
  }

  lemma DottedIsRecognised(name: string, extension: string)
    requires IsWord(name) && IsWord(extension)
    ensures IsRecognised(name + "." + extension) <==> |extension| <= 16
  {
    var path, dot := name + "." + extension, |name|;
    DottedIsPlain(name, extension);
    assert path[dot] == '.' && path[dot - 1] == name[dot - 1];
    forall k | 0 <= k < |path| && k != dot ensures IsNameChar(path[k]) {
      assert path[k] == if k < dot then name[k] else extension[k - dot - 1];
    }
    if |extension| <= 16 {
      assert ExtensionAt(path, dot);
    }
  }

  lemma OverlongIsNotRead(name: string, extension: string, line: Option<nat>, host: Host)
    requires IsOverlong(name, extension)
    ensures ParseSingle(Format(name + "." + extension, line), host).None?
  {
    var path := name + "." + extension;
    DottedIsPlain(name, extension);
    DottedIsRecognised(name, extension);
    var found, stripped := ParseParts(path, line, host);
    assert WithoutPrefix(path) == path;
  }

  lemma OverlongStart(name: string, extension: string, suffix: string, text: string, kept: string)
    requires IsOverlong(name, extension) && text == ("@" + (name + "." + extension)) + suffix
    requires kept == "@" + (name + "." + extension[..16])
    ensures |kept| == |name| + 18 <= |text| && text[0..|kept|] == kept
  {
    var rest := extension[16..] + suffix;
    assert extension == extension[..16] + extension[16..];
    assert text == kept + rest;
  }

  lemma OverlongExtract(name: string, extension: string, suffix: string, text: string, kept: string)
    requires IsOverlong(name, extension) && IsLine(suffix) && text == ("@" + (name + "." + extension)) + suffix
    requires kept == "@" + (name + "." + extension[..16]) && Strip(kept) == kept && !HasDoubleSlash(text)
    ensures Extract(text) != [] && Extract(text)[0] == kept
  {
    OverlongChars(text, name, extension, suffix);
    OverlongMatches(text, |name| + 1, |name| + 2 + |extension|);
    OverlongStart(name, extension, suffix, text, kept);
    FirstAtStart(text, kept);
  }

  lemma FirstAtStart(text: string, kept: string)
    requires kept != "" && |kept| <= |text| && text[0..|kept|] == kept && Strip(kept) == kept
    requires MatchEnd(text, 0) == Some(|kept|)
    ensures Extract(text) != [] && Extract(text)[0] == kept
  {
    var first := FirstExtracted(text, 0, |kept|);
  }

  /** The reference to a file whose extension is too long opens the file of the name that the search cuts it to. */
  lemma LongExtensionOpensAnother(name: string, extension: string, line: Option<nat>, rootPath: string, host: Host)
    requires IsOverlong(name, extension)
    ensures FromMessage(Message("", "", Format(name + "." + extension, line), None, None), rootPath, host)
         == Some(Reference(name + "." + extension[..16], None, None))
  {
    var path, kept := name + "." + extension, name + "." + extension[..16];
    DottedIsPlain(name, extension);
    DottedIsPlain(name, extension[..16]);
    TerminalReadsCut(name, extension, line, host);
    WrittenIsTrimmed(path, line);
    PlainIsRelative(kept, rootPath);
    MessageReads(Format(path, line), Reference(kept, None, None), Message("", "", Format(path, line), None, None),
                 rootPath, host);
  }

  lemma CutExtracts(name: string, extension: string, line: Option<nat>)
    requires IsOverlong(name, extension)
    ensures
      var text := Format(name + "." + extension, line);
      Strip(text) == text && Extract(text) != [] && Extract(text)[0] == Format(name + "." + extension[..16], None)
  {
    var path, kept := name + "." + extension, name + "." + extension[..16];
    DottedIsPlain(name, extension);
    DottedIsPlain(name, extension[..16]);
    var trimmed, suffix := WrittenText(path, line);
    TrimShrinks(path);
    LineOf(Written(line));
    FormatOfPlain(kept, None);
    assert kept + Suffix(None) == kept;
    WrittenReadsItself(kept, None);
    OverlongExtract(name, extension, suffix, Format(path, line), "@" + kept);
    WrittenReadsItself(path, line);
  }

  lemma CutIsRead(name: string, extension: string, host: Host)
    requires IsOverlong(name, extension)
    ensures
      var kept := name + "." + extension[..16];
      ParseSingle(Format(kept, None), host) == Some(Reference(kept, None, None))
  {
    DottedIsPlain(name, extension[..16]);
    DottedIsRecognised(name, extension[..16]);
    ParseWrittenPlain(name + "." + extension[..16], None, host);
  }

  lemma TerminalReadsCut(name: string, extension: string, line: Option<nat>, host: Host)
    requires IsOverlong(name, extension)
    ensures ParseTerminal(Format(name + "." + extension, line), host)
         == Some(Reference(name + "." + extension[..16], None, None))
  {
    var text, kept := Format(name + "." + extension, line), name + "." + extension[..16];
    CutExtracts(name, extension, line);
    OverlongIsNotRead(name, extension, line, host);
    ParseTerminalOf(text, host);
    CutIsRead(name, extension, host);
    FirstParsedFirst(Extract(text), host);
  }
}
