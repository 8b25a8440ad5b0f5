/** References in messages about links in the terminal: which of them open the file they were written for. */
module MessageRoundTrip {
  import opened Basics
  import opened WorkspacePaths
  import opened FileReferences
  import opened Stripping
  import opened ReferenceParts
  import opened ReferenceRoundTrip

  lemma PlainIsRelative(path: string, rootPath: string)
    requires IsPlain(path) && path[0] != '@'
    ensures WorkspaceRelative(path, rootPath) == Some(path)
  {
    BareKeepsItself(path);
    CleanHasNoBackslash(path);
    NormalizeRelativeCleans(path);
  }

  lemma {:induction false} FirstNonEmpty(candidates: seq<string>, i: nat)
    requires i < |candidates| && candidates[i] != "" && forall j :: 0 <= j < i ==> candidates[j] == ""
    ensures NonEmpty(candidates) != [] && NonEmpty(candidates)[0] == candidates[i]
  {
    var shorter := candidates[..|candidates| - 1];
    if i < |shorter| {
      FirstNonEmpty(shorter, i);
    } else {
      AllEmpty(shorter);
    }
  }

  lemma {:induction false} AllEmpty(candidates: seq<string>)
    requires forall j :: 0 <= j < |candidates| ==> candidates[j] == ""
    ensures NonEmpty(candidates) == []
  {
    if candidates == [] {
    } else {
      AllEmpty(candidates[..|candidates| - 1]);
    }
  }

  /** A message carries a written reference: as its path, or as its address or text when nothing comes before. */
  predicate Carries(message: Message, written: string) {
    || message.path == written
    || (message.path == "" && (message.href == written || (message.href == "" && message.text == written)))
  }

  lemma FirstOfThree(path: string, href: string, text: string, more: seq<string>, written: string)
    requires written != ""
    requires path == written || (path == "" && (href == written || (href == "" && text == written)))
    ensures NonEmpty([path, href, text] + more) != [] && NonEmpty([path, href, text] + more)[0] == written
  {
    var all := [path, href, text] + more;
    assert all[0] == path && all[1] == href && all[2] == text;
    FirstNonEmpty(all, if path == written then 0 else if href == written then 1 else 2);
  }

  lemma ListedStart(path: string, href: string, text: string, written: string)
    requires written != ""
    requires path == written || (path == "" && (href == written || (href == "" && text == written)))
    ensures Listed(path, href, text) != [] && Listed(path, href, text)[0] == written
  {
    FirstOfThree(path, href, text, Extract(text) + Extract(href), written);
  }

  lemma CandidatesStart(message: Message, clean: string -> string, written: string)
    requires Carries(message, written) && written != "" && clean(written) == written && clean("") == ""
    ensures Candidates(message, clean) != [] && Candidates(message, clean)[0] == written
  {
    ListedStart(clean(message.path), clean(message.href), clean(message.text), written);
  }

  lemma FirstCandidateWins(candidates: seq<string>, message: Message, rootPath: string, host: Host,
                           reference: Reference)
    requires candidates != [] && message.line.None? && message.column.None?
    ensures
      (ParseTerminal(candidates[0], host) == Some(reference)
       && WorkspaceRelative(reference.path, rootPath) == Some(reference.path))
      ==> FirstInside(candidates, message, rootPath, host) == Some(reference)
  {
  }

  lemma WrittenIsTrimmed(path: string, line: Option<nat>)
    requires IsPlain(path)
    ensures Format(path, line) != "" && IsTrimmed(Format(path, line))
  {
    FormatOfPlain(path, line);
    PlainIsNoAddress(path, Written(line));
  }

  lemma MessageReads(written: string, reference: Reference, message: Message, rootPath: string, host: Host)
    requires written != "" && IsTrimmed(written) && Carries(message, written)
    requires message.line.None? && message.column.None?
    ensures
      (ParseTerminal(written, host) == Some(reference)
       && WorkspaceRelative(reference.path, rootPath) == Some(reference.path))
      ==> FromMessage(message, rootPath, host) == Some(reference)
  {
    TrimShrinks(written);
    TrimShrinks("");
    CandidatesStart(message, Trimmer(), written);
    FirstCandidateWins(Candidates(message, Trimmer()), message, rootPath, host, reference);
  }

  /** Writing a reference and reading it from a terminal message gives the path and the line back. */
  lemma MessageReadsWritten(path: string, line: Option<nat>, message: Message, rootPath: string, host: Host)
    requires IsClean(path) && IsReadable(path, line) && !HasSpace(path) && Carries(message, Format(path, line))
    requires message.line.None? && message.column.None?
    ensures FromMessage(message, rootPath, host) == Some(Reference(path, Written(line), None))
  {
    WrittenIsTrimmed(path, line);
    TerminalReadsWritten(path, line, host);
    PlainIsRelative(path, rootPath);
    MessageReads(Format(path, line), Reference(path, Written(line), None), message, rootPath, host);
  }

  /** The message opens the other file if the path without its at sign is a clean path of its own. */
  lemma MessageOpensAnother(path: string, line: Option<nat>, message: Message, rootPath: string, host: Host)
    requires IsPlain(path) && path[0] == '@' && |path| > 1 && !HasSpace(path)
    requires IsPlain(path[1..]) && path[1] != '@' && IsRecognised(path[1..])
    requires Written(line).None? ==> HasNoLine(path)
    requires Carries(message, Format(path, line)) && message.line.None? && message.column.None?
    ensures FromMessage(message, rootPath, host) == Some(Reference(path[1..], Written(line), None))
  {
    WrittenIsTrimmed(path, line);
    AtSignIsLost(path, line, host);
    PlainIsRelative(path[1..], rootPath);
    MessageReads(Format(path, line), Reference(path[1..], Written(line), None), message, rootPath, host);
  }

  /** What `RelativeTo` finds is no longer than what it is given. */
  lemma RelativeIsNotLonger(candidate: string, rootPath: string)
    ensures RelativeTo(candidate, rootPath).Some? ==> |RelativeTo(candidate, rootPath).value| <= |candidate|
  {
    NormalizeRelativeShrinks(candidate);
    NormalizeAbsoluteShrinks(candidate);
    var root, abs := NormalizeAbsolute(rootPath), NormalizeAbsolute(candidate);
    if root.Some? && abs.Some? && Below(abs.value, root.value).Some? {
      NormalizeRelativeShrinks(abs.value[|root.value| + 1..]);
    }
  }

  function Outcome(parsed: Option<Reference>, rootPath: string): Option<Reference> {
    if parsed.None? || WorkspaceRelative(parsed.value.path, rootPath).None? then None
    else Some(Reference(WorkspaceRelative(parsed.value.path, rootPath).value, parsed.value.line, parsed.value.column))
  }

  lemma FirstInsideNext(candidates: seq<string>, message: Message, rootPath: string, host: Host)
    returns (outcome: Option<Reference>)
    requires candidates != [] && message.line.None? && message.column.None?
    ensures outcome == Outcome(ParseTerminal(candidates[0], host), rootPath)
    ensures FirstInside(candidates, message, rootPath, host)
         == if outcome.Some? then outcome else FirstInside(candidates[1..], message, rootPath, host)
  {
    outcome := Outcome(ParseTerminal(candidates[0], host), rootPath);
  }

  lemma {:induction false} FirstInsideIsOne(candidates: seq<string>, message: Message, rootPath: string, host: Host)
    returns (c: string)
    requires message.line.None? && message.column.None?
    ensures
      var read := FirstInside(candidates, message, rootPath, host);
      read.Some? ==> c in candidates && read == Outcome(ParseTerminal(c, host), rootPath)
  {
    c := "";
    if candidates == [] {
    } else {
      var outcome := FirstInsideNext(candidates, message, rootPath, host);
      if outcome.Some? {
        c := candidates[0];
      } else {
        c := FirstInsideIsOne(candidates[1..], message, rootPath, host);
      }
    }
  }

  lemma {:induction false} NonEmptyAmong(candidates: seq<string>, c: string)
    requires c in NonEmpty(candidates)
    ensures c in candidates && c != ""
  {
    if c in NonEmpty(candidates[..|candidates| - 1]) {
      NonEmptyAmong(candidates[..|candidates| - 1], c);
    }
  }

  lemma ListedIsPart(text: string, head: string, suffix: string, c: string)
    requires c in Listed("", "", text) && IsLine(suffix) && text == head + suffix && !HasDoubleSlash(text)
    ensures IsPart(c, head, suffix)
  {
    var found := Extract(text) + Extract("");
    NonEmptyAmong(["", "", text] + found, c);
    WholeIsPart(head, suffix);
    ExtractsParts(text, head, suffix);
    assert Extract("") == [];
    assert c in Extract(text) ==> Parts(head, suffix)(c);
  }

  lemma CleanedIsListed(text: string, clean: string -> string)
    requires clean(text) == text && clean("") == ""
    ensures Candidates(Message("", "", text, None, None), clean) == Listed("", "", text)
  {
  }

  lemma TextIsListed(text: string)
    requires IsTrimmed(text)
    ensures Candidates(Message("", "", text, None, None), Trimmer()) == Listed("", "", text)
  {
    TrimShrinks(text);
    TrimShrinks("");
    CleanedIsListed(text, Trimmer());
  }

  /** Whatever a message with a written reference opens was read from a part of the reference without white space. */
  lemma MessageReadsPart(text: string, head: string, suffix: string, rootPath: string, host: Host) returns (p: string)
    requires IsTrimmed(text) && IsLine(suffix) && text == head + suffix && !HasDoubleSlash(text)
    ensures
      var read := FromMessage(Message("", "", text, None, None), rootPath, host);
      read.Some? ==> Parts(head, suffix)(p) && read == Outcome(ParseSingle(p, host), rootPath)
  {
    var message := Message("", "", text, None, None);
    p := "";
    TextIsListed(text);
    var c := FirstInsideIsOne(Listed("", "", text), message, rootPath, host);
    if c in Listed("", "", text) {
      ListedIsPart(text, head, suffix, c);
      PartIsPiece(c, head, suffix);
      PieceHasNoDoubleSlash(c, text);
      p := TerminalReadsPart(c, head, suffix, host);
    }
  }

  lemma OutcomeReaches(parsed: Option<Reference>, path: string, line: Option<nat>, rootPath: string)
    requires Outcome(parsed, rootPath) == Some(Reference(path, line, None))
    ensures parsed.Some? && parsed.value.line == line && |parsed.value.path| >= |path|
  {
    StripPrefixShrinks(parsed.value.path);
    RelativeIsNotLonger(StripPrefix(parsed.value.path), rootPath);
  }

  lemma FormatIsTrimmed(head: string, trimmed: string, suffix: string)
    requires head == "@" + trimmed && trimmed != "" && IsTrimmed(trimmed) && IsLine(suffix)
    ensures IsTrimmed(head + suffix)
  {
    var text := head + suffix;
    assert text[|text| - 1] == if suffix == "" then trimmed[|trimmed| - 1] else suffix[|suffix| - 1];
  }

  lemma MessageReadsOther(path: string, line: Option<nat>, rootPath: string, host: Host)
    requires IsClean(path) && !(IsReadable(path, line) && !HasSpace(path))
    ensures FromMessage(Message("", "", Format(path, line), None, None), rootPath, host)
         != Some(Reference(path, Written(line), None))
  {
    var trimmed, suffix := WrittenText(path, line);
    LineOf(Written(line));
    if trimmed == "" {
      EmptyMessage(rootPath, host);
    } else {
      FormatIsTrimmed("@" + trimmed, trimmed, suffix);
      var p := MessageReadsPart(Format(path, line), "@" + trimmed, suffix, rootPath, host);
      if Outcome(ParseSingle(p, host), rootPath) == Some(Reference(path, Written(line), None))
         && Parts("@" + trimmed, suffix)(p) {
        OutcomeReaches(ParseSingle(p, host), path, Written(line), rootPath);
        PartReads(p, path, line, host);
      }
    }
  }

  lemma EmptyMessage(rootPath: string, host: Host)
    ensures FromMessage(Message("", "", "", None, None), rootPath, host).None?
  {
    TextIsListed("");
    assert Extract("") == [] && ["", "", ""] + ([] + []) == ["", "", ""];
    AllEmpty(["", "", ""]);
  }

  /**
   For every clean path, a message that carries nothing but the written reference opens this path at this line
   exactly when the path is readable and without white space.
   */
  lemma MessageReadsExactly(path: string, line: Option<nat>, rootPath: string, host: Host)
    requires IsClean(path)
    ensures FromMessage(Message("", "", Format(path, line), None, None), rootPath, host)
         == Some(Reference(path, Written(line), None))
       <==> IsReadable(path, line) && !HasSpace(path)
  {
    if IsReadable(path, line) && !HasSpace(path) {
      MessageReadsWritten(path, line, Message("", "", Format(path, line), None, None), rootPath, host);
    } else {
      MessageReadsOther(path, line, rootPath, host);
    }
  }
}
