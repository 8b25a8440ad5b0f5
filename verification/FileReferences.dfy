/**
 Writing and reading references to workspace files (`formatAgentFileReference`, `fileReferenceFromTerminalMessage`).
 */
module FileReferences {
  import opened Basics
  import opened Text
  import opened WorkspacePaths

  predicate IsQuote(c: char) {
    c == '\'' || c == '"' || c == '`'
  }

  /** The bracket that closes `c`, or `c` itself. */
  function Closing(c: char): char {
    if c == '(' then ')' else if c == '[' then ']' else if c == '{' then '}' else if c == '<' then '>' else c
  }

  predicate IsQuoted(s: string) {
    |s| >= 2 && IsQuote(s[0]) && s[|s| - 1] == s[0]
  }

  predicate IsBracketed(s: string) {
    |s| >= 2 && Closing(s[0]) != s[0] && s[|s| - 1] == Closing(s[0])
  }

  function Inner(s: string): (r: string)
    requires |s| >= 2
    ensures |r| < |s|
  {
    Trim(s[1..|s| - 1], ScriptSpace)
  }

  function Unquoted(s: string): string
    decreases |s|
  {
    if IsQuoted(s) then Unquoted(Inner(s)) else s
  }

  function Unbracketed(s: string): string
    decreases |s|
  {
    if IsBracketed(s) then Unbracketed(Inner(s)) else s
  }

  predicate IsTail(c: char) {
    c == '.' || c == ',' || c == ';'
  }

  function WithoutTail(s: string): string {
    if s != "" && IsTail(s[|s| - 1]) then WithoutTail(s[..|s| - 1]) else s
  }

  function StripBrackets(s: string): string {
    WithoutTail(Unbracketed(s))
  }

  function StripTrimmed(s: string): string {
    StripBrackets(Unquoted(s))
  }

  /** `stripFileReference`. */
  function Strip(raw: string): string {
    StripTrimmed(Trim(raw, ScriptSpace))
  }

  /** The loops of `stripFileReference`. */
  method StripFileReference(raw: string) returns (s: string)
    ensures s == Strip(raw)
  {
    s := Trim(raw, ScriptSpace);
    while IsQuoted(s)
      invariant Unquoted(s) == Unquoted(Trim(raw, ScriptSpace))
      decreases |s|
    {
      s := Trim(s[1..|s| - 1], ScriptSpace);
    }
    ghost var unquoted := s;
    var changed := true;
    while changed && |s| >= 2
      invariant Unbracketed(s) == Unbracketed(unquoted)
      invariant !changed ==> !IsBracketed(s)
      decreases |s|, changed
    {
      changed := false;
      if IsBracketed(s) {
        s := Trim(s[1..|s| - 1], ScriptSpace);
        changed := true;
      }
    }
    s := WithoutTail(s);
  }

  function WithoutPrefix(value: string): string {
    if |value| > 1 && value[0] == '@' then Strip(value[1..]) else value
  }

  /** `stripAgentReferencePrefix`. */
  function StripPrefix(raw: string): string {
    WithoutPrefix(Strip(raw))
  }

  predicate IsDigit(c: char) {
    '0' <= c <= '9'
  }

  /** How many digits a text starts with. */
  function Digits(s: string): (n: nat)
    ensures n <= |s|
  {
    if s != "" && IsDigit(s[0]) then 1 + Digits(s[1..]) else 0
  }

  /** The number a text of digits stands for. */
  function Number(s: string): nat {
    if s == "" then 0 else 10 * Number(s[..|s| - 1]) + if IsDigit(s[|s| - 1]) then s[|s| - 1] as int - '0' as int else 0
  }

  function Decimal(n: nat): (s: string)
    ensures s != ""
  {
    (if n < 10 then "" else Decimal(n / 10)) + [('0' as int + n % 10) as char]
  }

  /** `positiveInt` of a whole number. */
  function Positive(n: nat): Option<nat> {
    if n < 1 then None else Some(n)
  }

  /** A line and perhaps a column, with one character between them. */
  datatype Position = Position(line: nat, column: Option<nat>)

  function LineColumn(s: string, isBetween: char -> bool): Option<Position> {
    var n := Digits(s);
    if n == 0 then None
    else if n == |s| then Some(Position(Number(s), None))
    else if isBetween(s[n]) && n + 1 < |s| && Digits(s[n + 1..]) == |s| - n - 1 then
      Some(Position(Number(s[..n]), Some(Number(s[n + 1..]))))
    else None
  }

  function BetweenAnchor(): char -> bool {
    c => c == 'C' || c == 'c'
  }

  function BetweenSuffix(): char -> bool {
    c => c == ':'
  }

  /** `#L12` or `#L12C3` from position `i` to the end. */
  function AnchorAt(value: string, i: nat): Option<Position>
    requires i < |value|
  {
    if value[i] == '#' && i + 1 < |value| && (value[i + 1] == 'L' || value[i + 1] == 'l') then
      LineColumn(value[i + 2..], BetweenAnchor())
    else None
  }

  /** `:12` or `:12:3` from position `i` to the end. */
  function SuffixAt(value: string, i: nat): Option<Position>
    requires i < |value|
  {
    if value[i] == ':' then LineColumn(value[i + 1..], BetweenSuffix()) else None
  }

  datatype Found = Found(at: nat, position: Position)

  /** The leftmost match from `i` on. */
  function FindAnchor(value: string, i: nat): (found: Option<Found>)
    requires i <= |value|
    ensures found.Some? ==> i <= found.value.at < |value|
    decreases |value| - i
  {
    if i == |value| then None
    else if AnchorAt(value, i).Some? then Some(Found(i, AnchorAt(value, i).value))
    else FindAnchor(value, i + 1)
  }

  function FindSuffix(value: string, i: nat): (found: Option<Found>)
    requires i <= |value|
    ensures found.Some? ==> i <= found.value.at < |value|
    decreases |value| - i
  {
    if i == |value| then None
    else if SuffixAt(value, i).Some? then Some(Found(i, SuffixAt(value, i).value))
    else FindSuffix(value, i + 1)
  }

  predicate IsNameChar(c: char) {
    'a' <= c <= 'z' || 'A' <= c <= 'Z' || IsDigit(c) || c == '_' || c == '+' || c == '-'
  }

  /** A dot at `i`, after a character of a file name, with one to sixteen extension characters behind it. */
  predicate ExtensionAt(path: string, i: nat)
    requires i < |path|
  {
    && path[i] == '.' && i > 0 && (IsNameChar(path[i - 1]) || path[i - 1] == '.' || path[i - 1] == '@')
    && 1 <= |path| - i - 1 <= 16 && forall j :: i < j < |path| ==> IsNameChar(path[j])
  }

  /** What reading takes for a path: it has a slash or an extension. */
  predicate IsRecognised(path: string) {
    '/' in path || exists i :: 0 <= i < |path| && ExtensionAt(path, i)
  }

  /** `scheme://` at the start, ignoring case. */
  predicate HasScheme(s: string, scheme: string) {
    && |s| >= |scheme| + 3 && Lower(s[..|scheme|]) == scheme
    && s[|scheme|] == ':' && s[|scheme| + 1] == '/' && s[|scheme| + 2] == '/'
  }

  /** `isHttpUrl`. */
  predicate IsHttpUrl(value: string) {
    var s := Trim(value, ScriptSpace);
    HasScheme(s, "http") || HasScheme(s, "https")
  }

  /** What comes from elsewhere: the paths of file addresses. */
  datatype Host = Host(urlPath: string -> string)

  datatype Reference = Reference(path: string, line: Option<nat>, column: Option<nat>)

  /** The path without its line, and the line. */
  function SplitLine(value: string): Reference {
    var anchor, suffix := FindAnchor(value, 0), FindSuffix(value, 0);
    if anchor.Some? then At(value, anchor.value) else if suffix.Some? then At(value, suffix.value)
    else Reference(value, None, None)
  }

  function At(value: string, found: Found): Reference
    requires found.at <= |value|
  {
    var p := found.position;
    Reference(Trim(value[..found.at], ScriptSpace), Positive(p.line),
              if p.column.Some? then Positive(p.column.value) else None)
  }

  /** `parseSingleFileReference`. */
  function ParseSingle(raw: string, host: Host): Option<Reference> {
    var value := StripPrefix(raw);
    if value == "" || IsHttpUrl(value) then None
    else
      var fromUrl := HasScheme(value, "file");
      var found := SplitLine(if fromUrl then host.urlPath(value) else value);
      Checked(found, StripPrefix(found.path), fromUrl)
  }

  function Checked(found: Reference, path: string, fromUrl: bool): Option<Reference> {
    if path == "" || (!fromUrl && !IsRecognised(path)) then None else Some(found.(path := path))
  }

  /** Where an address or a path with a slash ends in a text. */
  predicate IsStop(c: char) {
    ScriptSpace(c) || c == '<' || c == '>' || IsQuote(c) || c == ')' || c == ']' || c == '}'
  }

  predicate GoesOn(c: char) {
    !IsStop(c)
  }

  /** The characters of a name before its extension. */
  predicate IsNamePart(c: char) {
    IsNameChar(c) || c == '.' || c == '@'
  }

  /** The end of the longest run of such characters from `i` on. */
  function RunEnd(s: string, i: nat, isIn: char -> bool): (end: nat)
    requires i <= |s|
    ensures i <= end <= |s|
    ensures end < |s| ==> !isIn(s[end])
    decreases |s| - i
  {
    if i < |s| && isIn(s[i]) then RunEnd(s, i + 1, isIn) else i
  }

  /** The same for a run that must not be empty. */
  function SomeEnd(s: string, i: nat, isIn: char -> bool): (end: Option<nat>)
    requires i <= |s|
    ensures end.Some? ==> i < end.value <= |s|
  {
    if RunEnd(s, i, isIn) == i then None else Some(RunEnd(s, i, isIn))
  }

  /** `@?file://` and more. */
  function AddressEnd(s: string, i: nat): (end: Option<nat>)
    requires i < |s|
    ensures end.Some? ==> i < end.value <= |s|
  {
    var j := if s[i] == '@' then i + 1 else i;
    if HasScheme(s[j..], "file") then SomeEnd(s, j + 7, GoesOn) else None
  }

  /** A slash, perhaps after a name, and more. */
  function SlashedEnd(s: string, i: nat): (end: Option<nat>)
    requires i < |s|
    ensures end.Some? ==> i < end.value <= |s|
  {
    var k := RunEnd(s, i, IsNamePart);
    if k < |s| && s[k] == '/' then SomeEnd(s, k + 1, GoesOn) else None
  }

  /** The last dot after `i` and not after `p` that an extension follows. */
  function LastDot(s: string, i: nat, p: nat): (dot: Option<nat>)
    requires p < |s|
    ensures dot.Some? ==>
              i < dot.value <= p && dot.value + 1 < |s| && s[dot.value] == '.' && IsNameChar(s[dot.value + 1])
    decreases p
  {
    if p <= i then None
    else if s[p] == '.' && p + 1 < |s| && IsNameChar(s[p + 1]) then Some(p)
    else LastDot(s, i, p - 1)
  }

  function ExtensionEnd(s: string, i: nat): (end: nat)
    requires i <= |s|
    ensures i <= end <= RunEnd(s, i, IsNameChar)
  {
    if RunEnd(s, i, IsNameChar) > i + 16 then i + 16 else RunEnd(s, i, IsNameChar)
  }

  /** `:12`, at most `n` times. */
  function ColonsEnd(s: string, i: nat, n: nat): (end: nat)
    requires i <= |s|
    ensures i <= end <= |s|
    decreases n
  {
    if n > 0 && i < |s| && s[i] == ':' && SomeEnd(s, i + 1, IsDigit).Some? then
      ColonsEnd(s, SomeEnd(s, i + 1, IsDigit).value, n - 1)
    else i
  }

  /** `#L12` or `#L12C3`, if there is one. */
  function AnchorEnd(s: string, i: nat): (end: nat)
    requires i <= |s|
    ensures i <= end <= |s|
  {
    if i + 1 < |s| && s[i] == '#' && (s[i + 1] == 'L' || s[i + 1] == 'l') && SomeEnd(s, i + 2, IsDigit).Some? then
      ColumnEnd(s, SomeEnd(s, i + 2, IsDigit).value)
    else i
  }

  function ColumnEnd(s: string, i: nat): (end: nat)
    requires i <= |s|
    ensures i <= end <= |s|
  {
    if i < |s| && (s[i] == 'C' || s[i] == 'c') && SomeEnd(s, i + 1, IsDigit).Some? then SomeEnd(s, i + 1, IsDigit).value
    else i
  }

  /** A name with an extension of at most sixteen characters, and perhaps a line. */
  function NamedEnd(s: string, i: nat): (end: Option<nat>)
    requires i < |s|
    ensures end.Some? ==> i < end.value <= |s|
  {
    var k := RunEnd(s, i, IsNamePart);
    var dot := if k == i then None else LastDot(s, i, k - 1);
    if dot.None? then None else Some(AnchorEnd(s, ColonsEnd(s, ExtensionEnd(s, dot.value + 1), 2)))
  }

  /**
   Where the pattern of `extractFileReferenceCandidates` ends if it matches at `i`. Its first alternative that
   matches counts. The optional `@` is also a character of a name, so it needs care before an address only.
   */
  function MatchEnd(s: string, i: nat): (end: Option<nat>)
    requires i < |s|
    ensures end.Some? ==> i < end.value <= |s|
  {
    if AddressEnd(s, i).Some? then AddressEnd(s, i)
    else if SlashedEnd(s, i).Some? then SlashedEnd(s, i)
    else NamedEnd(s, i)
  }

  function Ends(s: string): nat -> Option<nat> {
    (i: nat) => if i < |s| then MatchEnd(s, i) else None
  }

  function Stripper(): string -> string {
    s => Strip(s)
  }

  predicate IsMatch(s: string, i: nat, end: Option<nat>) {
    end.Some? && i < end.value <= |s|
  }

  function Kept(candidate: string): seq<string> {
    if candidate == "" then [] else [candidate]
  }

  /** The candidates from `i` on, for any pattern. A repetition is read like the first time, so repetitions may stay. */
  function ExtractFrom(s: string, i: nat, ends: nat -> Option<nat>, clean: string -> string): seq<string>
    requires i <= |s|
    decreases |s| - i
  {
    if i == |s| then []
    else if IsMatch(s, i, ends(i)) then
      Kept(clean(s[i..ends(i).value])) + ExtractFrom(s, ends(i).value, ends, clean)
    else ExtractFrom(s, i + 1, ends, clean)
  }

  function Extract(s: string): seq<string> {
    ExtractFrom(s, 0, Ends(s), Stripper())
  }

  /** The loop of `extractFileReferenceCandidates`, for any pattern. */
  method ExtractLoop(s: string, ends: nat -> Option<nat>, clean: string -> string) returns (candidates: seq<string>)
    ensures candidates == ExtractFrom(s, 0, ends, clean)
  {
    candidates := [];
    var i := 0;
    while i < |s|
      invariant i <= |s|
      invariant candidates + ExtractFrom(s, i, ends, clean) == ExtractFrom(s, 0, ends, clean)
    {
      var end := ends(i);
      if IsMatch(s, i, end) {
        var candidate := clean(s[i..end.value]);
        ConcatAssociates(candidates, Kept(candidate), ExtractFrom(s, end.value, ends, clean));
        if candidate != "" {
          candidates := candidates + [candidate];
        }
        i := end.value;
      } else {
        i := i + 1;
      }
    }
  }

  /** `extractFileReferenceCandidates`. */
  method ExtractCandidates(s: string) returns (candidates: seq<string>)
    ensures candidates == Extract(s)
  {
    candidates := ExtractLoop(s, Ends(s), Stripper());
  }

  predicate HasSpace(s: string) {
    exists i :: 0 <= i < |s| && ScriptSpace(s[i])
  }

  function FirstParsed(candidates: seq<string>, host: Host): Option<Reference> {
    if candidates == [] then None
    else if ParseSingle(candidates[0], host).Some? then ParseSingle(candidates[0], host)
    else FirstParsed(candidates[1..], host)
  }

  /** `parseTerminalFileReference`. */
  function ParseTerminal(raw: string, host: Host): Option<Reference> {
    var direct := Strip(raw);
    if !HasSpace(direct) && ParseSingle(direct, host).Some? then ParseSingle(direct, host)
    else FirstParsed(Extract(raw), host)
  }

  /** `workspaceRelativePath`. */
  function WorkspaceRelative(candidatePath: string, rootPath: string): Option<string> {
    RelativeTo(StripPrefix(candidatePath), rootPath)
  }

  function RelativeTo(candidate: string, rootPath: string): Option<string> {
    if candidate == "" then None
    else if candidate[0] == '/' then
      var root, abs := NormalizeAbsolute(rootPath), NormalizeAbsolute(candidate);
      if root.None? || abs.None? then None else Below(abs.value, root.value)
    else NormalizeRelative(candidate)
  }

  /** A message about a link in the terminal. */
  datatype Message = Message(path: string, href: string, text: string, line: Option<nat>, column: Option<nat>)

  function NonEmpty(candidates: seq<string>): seq<string> {
    if candidates == [] then []
    else
      var last := candidates[|candidates| - 1];
      NonEmpty(candidates[..|candidates| - 1]) + if last == "" then [] else [last]
  }

  function Trimmer(): string -> string {
    s => Trim(s, ScriptSpace)
  }

  /** The texts a message is read from; a repetition is read like the first time, so repetitions may stay. */
  function Candidates(message: Message, clean: string -> string): seq<string> {
    Listed(clean(message.path), clean(message.href), clean(message.text))
  }

  function Listed(path: string, href: string, text: string): seq<string> {
    NonEmpty([path, href, text] + (Extract(text) + Extract(href)))
  }

  function Or<T>(first: Option<T>, second: Option<T>): Option<T> {
    if first.Some? then first else second
  }

  function FirstInside(candidates: seq<string>, message: Message, rootPath: string, host: Host): Option<Reference> {
    if candidates == [] then None
    else
      var parsed := ParseTerminal(candidates[0], host);
      var path := if parsed.None? then None else WorkspaceRelative(parsed.value.path, rootPath);
      if path.None? then FirstInside(candidates[1..], message, rootPath, host)
      else
        var line := if message.line.Some? then Positive(message.line.value) else None;
        var column := if message.column.Some? then Positive(message.column.value) else None;
        Some(Reference(path.value, Or(line, parsed.value.line), Or(column, parsed.value.column)))
  }

  /** `fileReferenceFromTerminalMessage`. */
  function FromMessage(message: Message, rootPath: string, host: Host): Option<Reference> {
    FirstInside(Candidates(message, Trimmer()), message, rootPath, host)
  }

  /** The line that is written: none for a missing line or line 0. */
  function Written(line: Option<nat>): Option<nat> {
    if line.Some? then Positive(line.value) else None
  }

  function Suffix(line: Option<nat>): string {
    if line.Some? then "#L" + Decimal(line.value) else ""
  }

  /** `formatAgentFileReference`. */
  function Format(relPath: string, line: Option<nat>): string {
    var path := Trim(relPath, ScriptSpace);
    if path == "" then "" else "@" + (path + Suffix(Written(line)))
  }
}
