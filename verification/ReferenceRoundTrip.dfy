/** Reading back the references that were written, and what a reference can reach. */
module ReferenceRoundTrip {
  import opened Basics
  import opened Text
  import opened WorkspacePaths
  import opened FileReferences
  import opened Stripping
  import opened ReferenceParts

  lemma {:induction false} NumberOfDecimal(n: nat)
    ensures Number(Decimal(n)) == n && Digits(Decimal(n)) == |Decimal(n)|
  {
    var last := ('0' as int + n % 10) as char;
    if n >= 10 {
      NumberOfDecimal(n / 10);
      DigitsThen(Decimal(n / 10), last);
      assert Decimal(n)[..|Decimal(n)| - 1] == Decimal(n / 10);
    } else {
      assert Decimal(n) == [last] && [last][..0] == "" && [last][1..] == "";
    }
  }

  lemma {:induction false} DigitsThen(s: string, last: char)
    requires Digits(s) == |s| && IsDigit(last)
    ensures Digits(s + [last]) == |s| + 1
  {
    if s != "" {
      assert (s + [last])[1..] == s[1..] + [last];
      DigitsThen(s[1..], last);
    } else {
      assert s + [last] == [last] && [last][1..] == "";
    }
  }

  lemma {:induction false} DigitsAreDigits(s: string, i: nat)
    requires i < Digits(s)
    ensures IsDigit(s[i])
  {
    if i == 0 {
    } else {
      DigitsAreDigits(s[1..], i - 1);
    }
  }

  /** A position holds nothing but digits and the character between. */
  lemma PositionHasNoHash(s: string, isBetween: char -> bool, i: nat)
    requires LineColumn(s, isBetween).Some? && i < |s|
    ensures IsDigit(s[i]) || isBetween(s[i])
  {
    var n := Digits(s);
    if i < n {
      DigitsAreDigits(s, i);
    } else if i > n {
      DigitsAreDigits(s[n + 1..], i - n - 1);
    }
  }

  lemma WrittenAnchorAt(value: string, at: nat, line: nat)
    requires at + 2 <= |value| && value[at] == '#' && value[at + 1] == 'L' && value[at + 2..] == Decimal(line)
    ensures AnchorAt(value, at) == Some(Position(line, None))
  {
    NumberOfDecimal(line);
  }

  lemma NoAnchorBeforeHash(value: string, at: nat, i: nat)
    requires i < at < |value| && value[at] == '#'
    ensures AnchorAt(value, i).None?
  {
    if AnchorAt(value, i).Some? && i + 2 <= at {
      PositionHasNoHash(value[i + 2..], BetweenAnchor(), at - i - 2);
    }
  }

  /** Where a written anchor stands, it is found. */
  lemma {:induction false} FindsWrittenAnchor(value: string, at: nat, line: nat, i: nat)
    requires i <= at && at + 2 <= |value|
    requires value[at] == '#' && value[at + 1] == 'L' && value[at + 2..] == Decimal(line)
    ensures FindAnchor(value, i) == Some(Found(at, Position(line, None)))
    decreases at - i
  {
    if i == at {
      WrittenAnchorAt(value, at, line);
    } else {
      FindsWrittenAnchor(value, at, line, i + 1);
      NoAnchorBeforeHash(value, at, i);
    }
  }

  /** A path that names a file below the workspace root and that stripping leaves alone. */
  ghost predicate IsPlain(path: string) {
    IsClean(path) && IsBare(path)
  }

  lemma SuffixEnds(line: Option<nat>)
    ensures line.Some? ==> IsDigit(Suffix(line)[|Suffix(line)| - 1])
  {
    if line.Some? {
      NumberOfDecimal(line.value);
      DigitsAreDigits(Decimal(line.value), |Decimal(line.value)| - 1);
      assert Suffix(line)[2..] == Decimal(line.value);
    }
  }

  /** A text ends bare if it did, or if a line follows it. */
  lemma BareWithSuffix(path: string, suffix: string)
    requires IsBare(path) || (suffix != "" && path != "" && !ScriptSpace(path[0]))
    requires suffix != "" ==> IsDigit(suffix[|suffix| - 1])
    ensures IsBare(path + suffix) && IsBare("@" + (path + suffix))
  {
    var value := path + suffix;
    assert value[0] == path[0];
    assert suffix == "" ==> value == path;
    assert suffix != "" ==> IsDigit(value[|value| - 1]);
    var prefixed := "@" + value;
    assert prefixed[|prefixed| - 1] == value[|value| - 1] && prefixed[0] == '@';
  }

  lemma PrefixIsDropped(prefixed: string, value: string)
    requires |prefixed| > 1 && prefixed[0] == '@' && prefixed[1..] == value
    ensures Strip(prefixed) == prefixed && Strip(value) == value ==> StripPrefix(prefixed) == value
  {
  }

  lemma WrittenIsStripped(value: string)
    requires IsBare(value) && IsBare("@" + value)
    ensures Strip("@" + value) == "@" + value && StripPrefix("@" + value) == value
  {
    BareIsFixed("@" + value);
    BareIsFixed(value);
    PrefixIsDropped("@" + value, value);
  }

  lemma FirstPart(s: string)
    requires s != ""
    ensures Split(s, '/')[0] != "" ==> s[0] != '/'
  {
  }

  lemma NameAfterSlash(left: string, right: string)
    requires IsClean(left + ['/'] + right) && right != ""
    ensures right[0] != '/'
  {
    var parts := Split(left + ['/'] + right, '/');
    SplitConcat(left, right, '/');
    assert IsName(parts[|Split(left, '/')|]);
    FirstPart(right);
  }

  lemma CleanHasNoDoubleSlash(path: string)
    requires IsClean(path)
    ensures !HasDoubleSlash(path)
  {
    forall i | 0 <= i < |path| - 1 && path[i] == '/'
      ensures path[i + 1] != '/'
    {
      var left, right := path[..i], path[i + 1..];
      assert path == left + ['/'] + right;
      NameAfterSlash(left, right);
    }
  }

  lemma SuffixHasNoSlash(path: string, line: Option<nat>)
    requires !HasDoubleSlash(path)
    ensures !HasDoubleSlash(path + Suffix(line))
  {
    var value := path + Suffix(line);
    if line.Some? {
      NumberOfDecimal(line.value);
      forall i | 0 <= i < |value| - 1 && value[i] == '/'
        ensures value[i + 1] != '/'
      {
        if i + 1 < |path| {
          assert value[i] == path[i] && value[i + 1] == path[i + 1];
        } else if i + 1 >= |path| + 2 {
          DigitsAreDigits(Decimal(line.value), i + 1 - |path| - 2);
        }
      }
    } else {
      assert value == path;
    }
  }

  lemma PlainIsNoAddress(path: string, line: Option<nat>)
    requires IsPlain(path)
    ensures
      var value := path + Suffix(line);
      !IsHttpUrl(value) && !HasScheme(value, "file") && IsBare(value) && IsBare("@" + value)
  {
    var value := path + Suffix(line);
    CleanHasNoDoubleSlash(path);
    SuffixHasNoSlash(path, line);
    SuffixEnds(line);
    BareWithSuffix(path, Suffix(line));
    NoAddress(value);
  }

  /** The path itself does not end in something that reads as a line. */
  predicate HasNoLine(path: string) {
    FindAnchor(path, 0).None? && FindSuffix(path, 0).None?
  }

  lemma SplitWritten(path: string, line: Option<nat>)
    requires IsBare(path) && (line.Some? ==> line.value > 0)
    ensures
      var found := SplitLine(path + Suffix(line));
      if line.Some? || HasNoLine(path) then found == Reference(path, line, None) else |found.path| < |path|
  {
    var value := path + Suffix(line);
    TrimShrinks(path);
    if line.Some? {
      assert value[|path| + 2..] == Decimal(line.value);
      FindsWrittenAnchor(value, |path|, line.value, 0);
      assert value[..|path|] == path;
    } else {
      assert value == path;
    }
  }

  lemma FormatOfPlain(path: string, line: Option<nat>)
    requires IsBare(path)
    ensures Format(path, line) == "@" + (path + Suffix(Written(line)))
  {
    TrimShrinks(path);
  }

  lemma ParseStripped(raw: string, value: string, host: Host)
    requires StripPrefix(raw) == value && value != "" && !IsHttpUrl(value) && !HasScheme(value, "file")
    ensures ParseSingle(raw, host) == Checked(SplitLine(value), StripPrefix(SplitLine(value).path), false)
  {
  }

  lemma ParseFormat(path: string, line: Option<nat>, host: Host, found: Reference, stripped: string)
    requires IsPlain(path)
    ensures found == SplitLine(path + Suffix(Written(line))) && stripped == StripPrefix(found.path) ==>
      ParseSingle(Format(path, line), host) == Checked(found, stripped, false)
  {
    var value := path + Suffix(Written(line));
    FormatOfPlain(path, line);
    PlainIsNoAddress(path, Written(line));
    WrittenIsStripped(value);
    ParseStripped("@" + value, value, host);
  }

  /** What is found in a written reference, and what its path is stripped to. */
  lemma StripFound(path: string, line: Option<nat>) returns (found: Reference, stripped: string)
    requires IsPlain(path) && (line.Some? ==> line.value > 0)
    ensures found == SplitLine(path + Suffix(line)) && stripped == StripPrefix(found.path)
    ensures
      if line.Some? || HasNoLine(path) then found == Reference(path, line, None) && stripped == WithoutPrefix(path)
      else |stripped| < |path|
  {
    found := SplitLine(path + Suffix(line));
    stripped := StripPrefix(found.path);
    SplitWritten(path, line);
    if line.Some? || HasNoLine(path) {
      BareIsFixed(path);
    } else {
      StripPrefixShrinks(found.path);
    }
  }

  lemma ParseParts(path: string, line: Option<nat>, host: Host) returns (found: Reference, stripped: string)
    requires IsPlain(path)
    ensures ParseSingle(Format(path, line), host) == Checked(found, stripped, false)
    ensures
      if Written(line).Some? || HasNoLine(path) then
        found == Reference(path, Written(line), None) && stripped == WithoutPrefix(path)
      else |stripped| < |path|
  {
    found, stripped := StripFound(path, Written(line));
    ParseFormat(path, line, host, found, stripped);
  }

  lemma PrefixIsLost(path: string)
    requires IsClean(path) && path[0] == '@'
    ensures if |path| > 1 then |WithoutPrefix(path)| < |path| else !IsRecognised(path)
  {
    if |path| > 1 {
      AtSignIsDropped(path);
    } else {
      ShortIsUnrecognised(path);
    }
  }

  lemma AtSignIsDropped(path: string)
    requires |path| > 1 && path[0] == '@'
    ensures |WithoutPrefix(path)| < |path|
  {
    StripIsNotLonger(path[1..]);
  }

  lemma ShortIsUnrecognised(path: string)
    requires IsClean(path) && |path| == 1
    ensures !IsRecognised(path)
  {
    CleanHasNoBackslash(path);
  }

  /** A reference to a path that stripping leaves alone. */
  lemma ParseWrittenPlain(path: string, line: Option<nat>, host: Host)
    requires IsPlain(path)
    ensures ParseSingle(Format(path, line), host) == Some(Reference(path, Written(line), None))
       <==> path[0] != '@' && IsRecognised(path) && (Written(line).None? ==> HasNoLine(path))
  {
    var found, stripped := ParseParts(path, line, host);
    if path[0] == '@' {
      PrefixIsLost(path);
    }
  }

  lemma StripPrefixIsNotLonger(s: string)
    ensures |StripPrefix(s)| <= |s|
    ensures s != "" && |StripPrefix(s)| == |s| ==> IsBare(s)
  {
    StripPrefixShrinks(s);
    StripFixpoints(s);
    WithoutPrefixShrinks(Strip(s));
  }

  lemma AtSignStripped(value: string) returns (rest: string)
    requires |value| > 1 && value[0] == '@'
    ensures rest == WithoutPrefix(value) && |rest| < |value|
    ensures |rest| == |value| - 1 ==> IsBare(value[1..]) && rest == value[1..]
  {
    rest := Strip(value[1..]);
    StripFixpoints(value[1..]);
  }

  /** What a text is split into is shorter by the line that was found, or the text itself. */
  lemma SplitLineShrinks(value: string)
    ensures |SplitLine(value).path| <= |value|
    ensures SplitLine(value).line.Some? ==> |SplitLine(value).path| + 2 <= |value|
    ensures |SplitLine(value).path| == |value| ==> SplitLine(value) == Reference(value, None, None) && HasNoLine(value)
  {
    var anchor, suffix := FindAnchor(value, 0), FindSuffix(value, 0);
    if anchor.Some? {
      AnchorIsLong(value, 0);
    } else if suffix.Some? {
      SuffixIsLong(value, 0);
    }
  }

  lemma {:induction false} AnchorIsLong(value: string, i: nat)
    requires i <= |value| && FindAnchor(value, i).Some?
    ensures FindAnchor(value, i).value.at + 2 <= |value|
    decreases |value| - i
  {
    if AnchorAt(value, i).None? {
      AnchorIsLong(value, i + 1);
    }
  }

  lemma {:induction false} SuffixIsLong(value: string, i: nat)
    requires i <= |value| && FindSuffix(value, i).Some?
    ensures FindSuffix(value, i).value.at + 2 <= |value|
    decreases |value| - i
  {
    if SuffixAt(value, i).None? {
      SuffixIsLong(value, i + 1);
    }
  }

  /** What a text without an address in it is read as, if it is read at all. */
  lemma ReadParts(p: string, host: Host) returns (value: string, found: Reference, stripped: string)
    requires !HasDoubleSlash(p)
    ensures value == StripPrefix(p) && found == SplitLine(value) && stripped == StripPrefix(found.path)
    ensures ParseSingle(p, host).Some? ==>
              IsRecognised(stripped) && ParseSingle(p, host) == Some(found.(path := stripped))
  {
    value := StripPrefix(p);
    found := SplitLine(value);
    stripped := StripPrefix(found.path);
    StripPrefixIsPiece(p);
    PieceHasNoDoubleSlash(value, p);
    NoAddress(value);
  }

  /** Reading `stripped` out of `value` gives `path` at least its length, which only the path itself does. */
  lemma ReadsWhole(path: string, found: Reference, stripped: string)
    requires |path| > 1 && IsBare(path)
    requires found.path == path && stripped == StripPrefix(path) && |stripped| >= |path|
    ensures path[0] != '@' && stripped == path
  {
    BareIsFixed(path);
    if path[0] == '@' {
      var rest := AtSignStripped(path);
    }
  }

  lemma PieceHasNoSlash(c: string, t: string, sign: char)
    requires IsPiece(c, t) && sign !in t
    ensures sign !in c
  {
    var a, b :| IsSlice(c, t, a, b);
  }

  lemma PieceWithoutAt(p: string, trimmed: string)
    requires IsPiece(p, "@" + trimmed) && (p == "" || p[0] != '@')
    ensures |p| <= |trimmed| && (|p| == |trimmed| ==> p == trimmed)
  {
    var head := "@" + trimmed;
    var a, b :| IsSlice(p, head, a, b);
    if p != "" {
      assert p[0] == head[a] && head[0] == '@';
    }
    if |p| == |trimmed| && p != "" {
      assert head[1..] == trimmed;
    }
  }

  /** A piece of a reference without a line is stripped to the whole path only if the path is bare. */
  lemma PieceOfHead(p: string, path: string, trimmed: string) returns (value: string)
    requires IsPiece(p, "@" + trimmed) && |path| > 1 && |trimmed| <= |path| && (|trimmed| == |path| ==> trimmed == path)
    ensures value == StripPrefix(p)
    ensures |value| <= |path| && (|value| == |path| ==> value == path && IsBare(path))
  {
    value := StripPrefix(p);
    var head := "@" + trimmed;
    var a, b :| IsSlice(p, head, a, b);
    StripPrefixIsNotLonger(p);
    if p != "" && p[0] == '@' {
      value := AtPieceStripped(p);
      if |value| == |path| {
        assert p == head && p[1..] == trimmed;
      }
    } else if |value| == |path| {
      PieceWithoutAt(p, trimmed);
      BareIsFixed(p);
    }
  }

  lemma AtPieceStripped(p: string) returns (value: string)
    requires p != "" && p[0] == '@'
    ensures value == StripPrefix(p) && (|value| < |p| || |p| == 1)
    ensures |p| > 2 && |value| == |p| - 1 ==> value == p[1..] && IsBare(value)
  {
    value := StripPrefix(p);
    AtStays(p);
    StripFixpoints(p);
    if |Strip(p)| > 1 {
      value := AtSignStripped(Strip(p));
    }
  }

  /** Reading a piece of the text before the line leads to the path only as a whole. */
  lemma HeadReads(p: string, path: string, trimmed: string, line: Option<nat>, value: string, found: Reference,
                  stripped: string)
    requires IsPiece(p, "@" + trimmed) && |path| > 1 && |trimmed| <= |path| && (|trimmed| == |path| ==> trimmed == path)
    requires value == StripPrefix(p) && found == SplitLine(value) && stripped == StripPrefix(found.path)
    requires found.line == line && |stripped| >= |path|
    ensures line.None? && stripped == path && value == path && IsBare(path) && path[0] != '@' && HasNoLine(path)
  {
    var same := PieceOfHead(p, path, trimmed);
    SplitLineShrinks(value);
    StripPrefixIsNotLonger(found.path);
    ReadsWhole(path, found, stripped);
  }

  lemma DigitsAreLine(digits: string, suffix: string)
    requires Digits(digits) == |digits| > 0 && suffix == "#L" + digits
    ensures IsLine(suffix) && suffix != "" && '/' !in suffix && '.' !in suffix
  {
    forall k | 2 <= k < |suffix| ensures IsDigit(suffix[k]) {
      DigitsAreDigits(digits, k - 2);
      assert suffix[k] == digits[k - 2];
    }
  }

  lemma LineOf(line: Option<nat>)
    ensures IsLine(Suffix(line)) && (line.Some? ==> Suffix(line) != "")
    ensures '/' !in Suffix(line) && '.' !in Suffix(line)
  {
    if line.Some? {
      NumberOfDecimal(line.value);
      DigitsAreLine(Decimal(line.value), Suffix(line));
    }
  }

  lemma LineReads(p: string, suffix: string, stripped: string)
    requires IsPiece(stripped, p) && IsPiece(p, suffix) && '/' !in suffix && '.' !in suffix
    ensures !IsRecognised(stripped)
  {
    PieceOfPiece(stripped, p, suffix);
    PieceHasNoSlash(stripped, suffix, '/');
    PieceHasNoSlash(stripped, suffix, '.');
  }

  lemma KeepsDigit(c: string)
    requires c != "" && IsDigit(c[|c| - 1]) && !ScriptSpace(c[0])
    ensures Strip(c) == c
  {
    var left := StripBeforeDigit(c);
    LeftEdgeAt(c, 0, ScriptSpace, 0);
    assert c[0..] == c;
  }

  lemma StripKept(p: string)
    requires Strip(p) == p && p != ""
    ensures p[0] != '@' ==> StripPrefix(p) == p
    ensures |p| > 1 && p[0] == '@' && Strip(p[1..]) == p[1..] ==> StripPrefix(p) == p[1..]
  {
  }

  /** What is before the line when the text has been stripped of an at sign. */
  function AfterAt(before: string): string {
    if before != "" && before[0] == '@' then before[1..] else before
  }

  /** A text that ends in a written line is stripped to what follows its at sign. */
  lemma StripLined(p: string, before: string, suffix: string)
    requires p == before + suffix && suffix != "" && IsDigit(suffix[|suffix| - 1]) && suffix[0] == '#'
    requires !ScriptSpace(p[0]) && (before != "" && before[0] == '@' ==> !ScriptSpace(p[1]))
    ensures StripPrefix(p) == AfterAt(before) + suffix
  {
    assert p[|p| - 1] == suffix[|suffix| - 1];
    KeepsDigit(p);
    if before != "" && before[0] == '@' {
      assert p[1..] == before[1..] + suffix;
      KeepsDigit(p[1..]);
    }
    StripKept(p);
  }

  lemma SplitLined(before: string, line: nat)
    requires line > 0
    ensures SplitLine(before + Suffix(Some(line))) == Reference(Trim(before, ScriptSpace), Some(line), None)
  {
    var value := before + Suffix(Some(line));
    assert value[|before| + 2..] == Decimal(line);
    FindsWrittenAnchor(value, |before|, line, 0);
    assert value[..|before|] == before;
  }

  lemma LinedStart(p: string, trimmed: string, suffix: string, a: nat)
    requires EndsWith(p, "@" + trimmed, suffix, a) && p != "" && trimmed != "" && IsTrimmed(trimmed)
    requires !HasSpace(p) || a == 0
    ensures !ScriptSpace(p[0]) && (|p| > 1 ==> !ScriptSpace(p[1]))
  {
    if a == 0 {
      assert p[0] == '@' && p[1] == trimmed[0];
    }
  }

  lemma LinedWhole(before: string, path: string, trimmed: string, a: nat)
    requires a <= |trimmed| + 1 && before == ("@" + trimmed)[a..] && |path| > 1
    requires |trimmed| <= |path| && (|trimmed| == |path| ==> trimmed == path)
    ensures |AfterAt(before)| <= |path| && (|AfterAt(before)| == |path| ==> AfterAt(before) == path && trimmed == path)
  {
    if a == 0 {
      assert before == "@" + trimmed && before[1..] == trimmed;
    } else {
      assert before == trimmed[a - 1..];
    }
  }

  /** Reading an end of the text with its line leads to the path only as a whole. */
  lemma LinedReads(p: string, path: string, trimmed: string, line: nat, a: nat, stripped: string)
    requires |path| > 1 && trimmed == Trim(path, ScriptSpace) != "" && line > 0
    requires EndsWith(p, "@" + trimmed, Suffix(Some(line)), a) && (!HasSpace(p) || a == 0)
    requires stripped == StripPrefix(SplitLine(StripPrefix(p)).path) && |stripped| >= |path|
    ensures stripped == path && IsBare(path) && path[0] != '@' && IsPiece(path, p)
  {
    var before, suffix := ("@" + trimmed)[a..], Suffix(Some(line));
    var rest := AfterAt(before);
    SuffixEnds(Some(line));
    LinedStart(p, trimmed, suffix, a);
    StripLined(p, before, suffix);
    SplitLined(rest, line);
    LinedWhole(before, path, trimmed, a);
    StripPrefixIsNotLonger(Trim(rest, ScriptSpace));
    assert Trim(rest, ScriptSpace) == path;
    ReadsWhole(path, Reference(path, None, None), stripped);
    RestIsPiece(p, before, suffix);
  }

  lemma RestIsPiece(p: string, before: string, suffix: string)
    requires p == before + suffix
    ensures IsPiece(AfterAt(before), p)
  {
    var rest := AfterAt(before);
    assert IsSlice(rest, p, |before| - |rest|, |before|);
  }

  lemma FormatTrimmed(path: string, line: Option<nat>)
    ensures
      var trimmed := Trim(path, ScriptSpace);
      Format(path, line) == if trimmed == "" then "" else "@" + (trimmed + Suffix(Written(line)))
  {
  }

  /** The path can be read back from its reference, see `ParseWritten`. */
  ghost predicate IsReadable(path: string, line: Option<nat>) {
    IsBare(path) && path[0] != '@' && IsRecognised(path) && (Written(line).None? ==> HasNoLine(path))
  }

  lemma AtHasNoDoubleSlash(value: string)
    requires !HasDoubleSlash(value)
    ensures !HasDoubleSlash("@" + value)
  {
    var raw := "@" + value;
    forall i | 0 <= i < |raw| - 1 && raw[i] == '/'
      ensures raw[i + 1] != '/'
    {
      assert raw[i] == value[i - 1] && raw[i + 1] == value[i];
    }
  }

  lemma WrittenText(path: string, line: Option<nat>) returns (trimmed: string, suffix: string)
    requires IsClean(path)
    ensures trimmed == Trim(path, ScriptSpace) && suffix == Suffix(Written(line))
    ensures |trimmed| <= |path| && (|trimmed| == |path| ==> trimmed == path) && IsTrimmed(trimmed)
    ensures Format(path, line) == if trimmed == "" then "" else ("@" + trimmed) + suffix
    ensures !HasDoubleSlash(("@" + trimmed) + suffix)
  {
    trimmed, suffix := Trim(path, ScriptSpace), Suffix(Written(line));
    TrimIsTrimmed(path);
    FormatTrimmed(path, line);
    WrittenHasNoDoubleSlash(path, trimmed, Written(line));
    ConcatAssociates("@", trimmed, suffix);
  }

  lemma WrittenHasNoDoubleSlash(path: string, trimmed: string, line: Option<nat>)
    requires IsClean(path) && trimmed == Trim(path, ScriptSpace)
    ensures !HasDoubleSlash("@" + (trimmed + Suffix(line)))
  {
    CleanHasNoDoubleSlash(path);
    TrimIsPiece(path);
    PieceHasNoDoubleSlash(trimmed, path);
    SuffixHasNoSlash(trimmed, line);
    AtHasNoDoubleSlash(trimmed + Suffix(line));
  }

  /** A path of one character is read out of nothing: no slash and no dot is in its reference. */
  lemma ShortReads(p: string, path: string, trimmed: string, suffix: string, stripped: string)
    requires IsClean(path) && |path| <= 1 && |trimmed| <= |path| && (|trimmed| == |path| ==> trimmed == path)
    requires IsPiece(p, ("@" + trimmed) + suffix) && IsPiece(stripped, p) && '/' !in suffix && '.' !in suffix
    ensures !IsRecognised(stripped)
  {
    CleanHasNoBackslash(path);
    SplitWord(path, '/');
    assert IsName(Split(path, '/')[0]);
    LineReads(p, ("@" + trimmed) + suffix, stripped);
  }

  lemma StrippedIsPiece(p: string) returns (stripped: string)
    ensures stripped == StripPrefix(SplitLine(StripPrefix(p)).path) && IsPiece(stripped, p)
  {
    var value := StripPrefix(p);
    var found := SplitLine(value).path;
    stripped := StripPrefix(found);
    StripPrefixIsPiece(p);
    SplitLineIsPiece(value);
    StripPrefixIsPiece(found);
    PieceOfPiece(found, value, p);
    PieceOfPiece(stripped, found, p);
  }

  /** What a part of a written reference is stripped to leads to the path only if the path is readable. */
  lemma PartStripped(p: string, path: string, line: Option<nat>, trimmed: string, found: Reference, stripped: string)
    requires IsClean(path) && |path| > 1 && trimmed == Trim(path, ScriptSpace) != ""
    requires |trimmed| <= |path| && (|trimmed| == |path| ==> trimmed == path)
    requires IsPart(p, "@" + trimmed, Suffix(Written(line)))
    requires !HasSpace(p) || p == ("@" + trimmed) + Suffix(Written(line))
    requires found == SplitLine(StripPrefix(p)) && stripped == StripPrefix(found.path) && IsPiece(stripped, p)
    requires found.line == Written(line) && |stripped| >= |path| && IsRecognised(stripped)
    ensures IsReadable(path, line) && IsPiece(path, p)
  {
    var suffix := Suffix(Written(line));
    LineOf(Written(line));
    var a := PartKind(p, "@" + trimmed, suffix);
    if a >= 0 {
      LinedReads(p, path, trimmed, Written(line).value, a, stripped);
    } else if IsPiece(p, suffix) {
      LineReads(p, suffix, stripped);
    } else {
      HeadReads(p, path, trimmed, Written(line), StripPrefix(p), found, stripped);
      StripPrefixIsPiece(p);
    }
  }

  /** A part of a written reference is read as something that leads to the path only if the path is readable. */
  lemma PartReads(p: string, path: string, line: Option<nat>, host: Host)
    requires IsClean(path) && Trim(path, ScriptSpace) != ""
    requires IsPart(p, "@" + Trim(path, ScriptSpace), Suffix(Written(line)))
    requires !HasSpace(p) || p == Format(path, line)
    ensures
      var read := ParseSingle(p, host);
      read.Some? && read.value.line == Written(line) && |read.value.path| >= |path| ==>
        IsReadable(path, line) && (!HasSpace(p) ==> !HasSpace(path))
  {
    var trimmed, suffix := WrittenText(path, line);
    PartIsPiece(p, "@" + trimmed, suffix);
    PieceHasNoDoubleSlash(p, ("@" + trimmed) + suffix);
    var value, found, stripped := ReadParts(p, host);
    var same := StrippedIsPiece(p);
    LineOf(Written(line));
    if |path| <= 1 {
      ShortReads(p, path, trimmed, suffix, stripped);
    } else if IsRecognised(stripped) && found.line == Written(line) && |stripped| >= |path| {
      PartStripped(p, path, line, trimmed, found, stripped);
      if !HasSpace(p) {
        PieceHasNoSpace(path, p);
      }
    }
  }

  /**
   For every clean path, a written reference parses back to the same path and line exactly when stripping
   leaves the path alone, it does not start with an at sign, it is recognisable and, without a line, it does
   not itself end like one.
   */
  lemma ParseWritten(path: string, line: Option<nat>, host: Host)
    requires IsClean(path)
    ensures ParseSingle(Format(path, line), host) == Some(Reference(path, Written(line), None))
       <==> IsReadable(path, line)
  {
    if IsReadable(path, line) {
      ParseWrittenPlain(path, line, host);
    } else {
      var trimmed, suffix := WrittenText(path, line);
      if trimmed == "" {
        StripShrinks("");
      } else {
        WholeIsPart("@" + trimmed, suffix);
        PartReads(Format(path, line), path, line, host);
      }
    }
  }

  lemma WrittenHasNoSpace(path: string, line: Option<nat>)
    requires !HasSpace(path)
    ensures !HasSpace("@" + (path + Suffix(line)))
  {
    var value := path + Suffix(line);
    if line.Some? {
      NumberOfDecimal(line.value);
      forall i | 0 <= i < |value|
        ensures !ScriptSpace(value[i])
      {
        if i < |path| {
          assert value[i] == path[i];
        } else if i >= |path| + 2 {
          DigitsAreDigits(Decimal(line.value), i - |path| - 2);
        }
      }
    } else {
      assert value == path;
    }
  }

  /** The terminal parser tries a reference whole when it has no white space, and searches it otherwise. */
  lemma ParseTerminalOf(raw: string, host: Host)
    requires Strip(raw) == raw
    ensures ParseTerminal(raw, host)
         == if !HasSpace(raw) && ParseSingle(raw, host).Some? then ParseSingle(raw, host)
            else FirstParsed(Extract(raw), host)
  {
  }

  lemma WrittenSpace(path: string, line: Option<nat>)
    ensures HasSpace("@" + (path + Suffix(line))) <==> HasSpace(path)
  {
    if HasSpace(path) {
      var i :| 0 <= i < |path| && ScriptSpace(path[i]);
      assert ("@" + (path + Suffix(line)))[i + 1] == path[i];
    } else {
      WrittenHasNoSpace(path, line);
    }
  }

  lemma WrittenReadsItself(path: string, line: Option<nat>)
    requires IsPlain(path)
    ensures Strip(Format(path, line)) == Format(path, line)
    ensures HasSpace(Format(path, line)) <==> HasSpace(path)
  {
    FormatOfPlain(path, line);
    PlainIsNoAddress(path, Written(line));
    WrittenIsStripped(path + Suffix(Written(line)));
    WrittenSpace(path, Written(line));
  }

  lemma {:induction false} FirstParsedIsOne(candidates: seq<string>, host: Host) returns (p: string)
    ensures FirstParsed(candidates, host).Some? ==>
              p in candidates && ParseSingle(p, host) == FirstParsed(candidates, host)
  {
    p := "";
    if candidates == [] {
    } else if ParseSingle(candidates[0], host).Some? {
      p := candidates[0];
    } else {
      p := FirstParsedIsOne(candidates[1..], host);
    }
  }

  /** Whatever the terminal parser makes of a part, it read a part without white space. */
  lemma TerminalReadsPart(c: string, head: string, suffix: string, host: Host) returns (p: string)
    requires IsLine(suffix) && IsPart(c, head, suffix) && !HasDoubleSlash(c)
    ensures ParseTerminal(c, host).Some? ==> Parts(head, suffix)(p) && ParseSingle(p, host) == ParseTerminal(c, host)
  {
    p := Strip(c);
    StripIsPart(c, head, suffix);
    if HasSpace(p) || ParseSingle(p, host).None? {
      ExtractsParts(c, head, suffix);
      p := FirstParsedIsOne(Extract(c), host);
    }
  }

  /** The terminal parser reads a written reference back exactly when the path is readable and without white space. */
  lemma TerminalReadsWritten(path: string, line: Option<nat>, host: Host)
    requires IsClean(path)
    ensures ParseTerminal(Format(path, line), host) == Some(Reference(path, Written(line), None))
       <==> IsReadable(path, line) && !HasSpace(path)
  {
    if IsReadable(path, line) && !HasSpace(path) {
      WrittenReadsItself(path, line);
      ParseTerminalOf(Format(path, line), host);
      ParseWrittenPlain(path, line, host);
    } else {
      TerminalReadsOther(path, line, host);
    }
  }

  lemma NothingIsRead(host: Host)
    ensures ParseTerminal("", host).None?
  {
    StripShrinks("");
  }

  lemma TerminalReadsOther(path: string, line: Option<nat>, host: Host)
    requires IsClean(path) && !(IsReadable(path, line) && !HasSpace(path))
    ensures ParseTerminal(Format(path, line), host) != Some(Reference(path, Written(line), None))
  {
    var trimmed, suffix := WrittenText(path, line);
    if trimmed == "" {
      NothingIsRead(host);
    } else {
      LineOf(Written(line));
      WholeIsPart("@" + trimmed, suffix);
      var p := TerminalReadsPart(Format(path, line), "@" + trimmed, suffix, host);
      if Parts("@" + trimmed, suffix)(p) {
        PartReads(p, path, line, host);
      }
    }
  }

  /**
   A path that starts with an at sign, such as `@types/node.ts`, is read back without it: the reference
   names another file.
   */
  lemma AtSignIsLost(path: string, line: Option<nat>, host: Host)
    requires IsPlain(path) && path[0] == '@' && |path| > 1 && !HasSpace(path)
    requires IsBare(path[1..]) && IsRecognised(path[1..]) && (Written(line).None? ==> HasNoLine(path))
    ensures ParseTerminal(Format(path, line), host) == Some(Reference(path[1..], Written(line), None))
  {
    var found, stripped := ParseParts(path, line, host);
    BareIsFixed(path[1..]);
    WrittenReadsItself(path, line);
    ParseTerminalOf(Format(path, line), host);
  }

  lemma RelativeIsClean(candidate: string, rootPath: string)
    ensures RelativeTo(candidate, rootPath).Some? ==> IsClean(RelativeTo(candidate, rootPath).value)
  {
    NormalizeRelativeCleans(candidate);
    NormalizeAbsoluteCleans(rootPath);
    NormalizeAbsoluteCleans(candidate);
    var root, abs := NormalizeAbsolute(rootPath), NormalizeAbsolute(candidate);
    if root.Some? && abs.Some? && Below(abs.value, root.value).Some? {
      BelowInvertsJoin(abs.value, root.value, Below(abs.value, root.value).value);
    }
  }

  /** What a reference reaches is a clean path: never the root itself, nor anything outside it. */
  lemma RelativeStaysInside(candidatePath: string, rootPath: string)
    ensures WorkspaceRelative(candidatePath, rootPath).Some? ==>
              IsClean(WorkspaceRelative(candidatePath, rootPath).value)
  {
    RelativeIsClean(StripPrefix(candidatePath), rootPath);
  }

  /**
   For a normal root, an absolute path is found at `path` exactly when the root is not `/` and the path,
   normalised, is the root, a slash and that clean path.
   */
  lemma RelativeInvertsJoin(candidate: string, root: string, path: string)
    requires IsCleanRoot(root) && candidate != "" && candidate[0] == '/'
    ensures RelativeTo(candidate, root) == Some(path)
       <==> root != "/" && NormalizeAbsolute(candidate) == Some(root + "/" + path) && IsClean(path)
  {
    NormalizeAbsoluteCleans(root);
    NormalizeAbsoluteCleans(candidate);
    if NormalizeAbsolute(candidate).Some? {
      BelowInvertsJoin(NormalizeAbsolute(candidate).value, root, path);
    }
  }

  lemma JoinedIsClean(root: string, path: string)
    requires IsCleanRoot(root) && root != "/" && IsClean(path)
    ensures IsCleanRoot(root + "/" + path)
  {
    var joined := root + "/" + path;
    assert joined[1..] == root[1..] + ['/'] + path;
    SplitConcat(root[1..], path, '/');
  }

  lemma SlashStaysTrimmed(s: string)
    requires s != "" && s[0] == '/'
    ensures Trim(s, ScriptSpace) != "" && Trim(s, ScriptSpace)[0] == '/'
  {
    TrimKeepsFirst(s);
  }

  lemma SlashStaysStripped(s: string)
    requires s != "" && s[0] == '/'
    ensures StripTrimmed(s) != "" && StripTrimmed(s)[0] == '/'
  {
    UnquotedShrinks(s);
    UnbracketedShrinks(s);
    WithoutTailKeeps(s);
  }

  /** An absolute path stays absolute when it is stripped, and gets shorter unless its end is clean. */
  lemma StripAbsolute(s: string)
    requires s != "" && s[0] == '/'
    ensures StripPrefix(s) != "" && StripPrefix(s)[0] == '/'
    ensures if EndsClean(s) then StripPrefix(s) == s else |StripPrefix(s)| < |s|
  {
    SlashIsBare(s);
    SlashStays(s);
    StripFixpoints(s);
    SlashIsNoPrefix(s);
  }

  lemma SlashIsBare(s: string)
    requires s != "" && s[0] == '/'
    ensures IsBare(s) <==> EndsClean(s)
  {
  }

  lemma SlashStays(s: string)
    requires s != "" && s[0] == '/'
    ensures Strip(s) != "" && Strip(s)[0] == '/'
  {
    SlashStaysTrimmed(s);
    SlashStaysStripped(Trim(s, ScriptSpace));
  }

  lemma SlashIsNoPrefix(s: string)
    requires s != "" && s[0] == '/'
    ensures StripPrefix(s) == Strip(s)
  {
    SlashStays(s);
  }

  /** The text does not end in white space or in punctuation that stripping removes. */
  predicate EndsClean(s: string)
    requires s != ""
  {
    !ScriptSpace(s[|s| - 1]) && !IsTail(s[|s| - 1])
  }

  lemma ShorterIsNotJoined(candidate: string, root: string, path: string)
    requires IsCleanRoot(root) && root != "/" && candidate != "" && candidate[0] == '/'
    requires |candidate| < |root| + 1 + |path|
    ensures RelativeTo(candidate, root) != Some(path)
  {
    NormalizeAbsoluteShrinks(candidate);
    RelativeInvertsJoin(candidate, root, path);
  }

  /**
   Joining a normal root and a clean path and making the result relative again gives the path back exactly
   when the path does not end in white space, a full stop, a comma or a semicolon.
   */
  lemma WorkspaceRelativeOfJoin(root: string, path: string)
    requires IsCleanRoot(root) && root != "/" && IsClean(path)
    ensures WorkspaceRelative(root + "/" + path, root) == Some(path) <==> EndsClean(path)
  {
    var joined := root + "/" + path;
    JoinedIsClean(root, path);
    NormalizeAbsoluteCleans(joined);
    StripAbsolute(joined);
    assert joined[|joined| - 1] == path[|path| - 1];
    if EndsClean(path) {
      RelativeInvertsJoin(joined, root, path);
    } else {
      ShorterIsNotJoined(StripPrefix(joined), root, path);
    }
  }
}
