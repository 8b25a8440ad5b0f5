/** Forwarding an agent's output line by line (`_pump`), whatever the chunks the stream is read in. */
module LinePump {
  import opened Text

  /** `_is_noise_line`. */
  predicate IsNoiseLine(line: string) {
    var s := Trim(line, PythonSpace);
    || s == ""
    || (Contains(s, "ev_poll_posix.cc") && Contains(s, "FD from fork parent"))
    || Contains(s, "FD from fork parent still in poll list")
  }

  /** What is tested for noise does not depend on whether the newline has arrived. */
  lemma TrimIgnoresTheNewline(line: string)
    ensures Trim(line + "\n", PythonSpace) == Trim(line, PythonSpace)
  {
    TrimIgnoresTheEnd(line, '\n', PythonSpace);
  }

  /** `find("\n")`: the position of the first newline, or the length of the text when there is none. */
  function LineEnd(text: string): (i: nat)
    ensures i <= |text|
  {
    if text == "" || text[0] == '\n' then 0 else 1 + LineEnd(text[1..])
  }

  lemma {:induction false} LineEndIs(text: string, i: nat)
    requires i <= |text| && (i < |text| ==> text[i] == '\n')
    requires forall j :: 0 <= j < i ==> text[j] != '\n'
    ensures LineEnd(text) == i
  {
    if i == 0 {
    } else {
      LineEndIs(text[1..], i - 1);
    }
  }

  lemma {:induction false} LineEndFinds(text: string)
    ensures LineEnd(text) < |text| ==> text[LineEnd(text)] == '\n'
    ensures forall j :: 0 <= j < LineEnd(text) ==> text[j] != '\n'
  {
    if text != "" && text[0] != '\n' {
      LineEndFinds(text[1..]);
      forall j | 0 <= j < LineEnd(text)
        ensures text[j] != '\n'
      {
        if j > 0 { assert text[j] == text[1..][j - 1]; }
      }
    }
  }

  /** The lines of a text, each with its newline, and what follows the last newline if anything does. */
  function Lines(text: string): seq<string> {
    if text == "" then []
    else if LineEnd(text) == |text| then [text]
    else [text[..LineEnd(text) + 1]] + Lines(text[LineEnd(text) + 1..])
  }

  function Concat(pieces: seq<string>): string {
    if pieces == [] then "" else pieces[0] + Concat(pieces[1..])
  }

  predicate IsLine(line: string) {
    line != "" && line[|line| - 1] == '\n' && forall i :: 0 <= i < |line| - 1 ==> line[i] != '\n'
  }

  predicate IsTail(line: string) {
    line != "" && forall i :: 0 <= i < |line| ==> line[i] != '\n'
  }

  predicate AreLines(lines: seq<string>) {
    && (forall i :: 0 <= i < |lines| - 1 ==> IsLine(lines[i]))
    && (lines != [] ==> IsLine(lines[|lines| - 1]) || IsTail(lines[|lines| - 1]))
  }

  lemma FirstLine(line: string, rest: string)
    requires IsLine(line)
    ensures Lines(line + rest) == [line] + Lines(rest)
  {
    var text := line + rest;
    LineEndIs(text, |line| - 1);
    assert text[..|line|] == line && text[|line|..] == rest;
  }

  /** `Lines` is the only way to cut a text into lines and an unterminated tail. */
  lemma {:induction false} LinesAreUnique(lines: seq<string>)
    requires AreLines(lines)
    ensures Lines(Concat(lines)) == lines
  {
    if lines == [] {
    } else {
      var first, rest := lines[0], lines[1..];
      LinesAreUnique(rest);
      if IsLine(first) {
        FirstLine(first, Concat(rest));
      } else {
        assert rest == [] && Concat(lines) == first;
        LineEndIs(first, |first|);
      }
    }
  }

  lemma AreLinesCons(text: string, cut: nat, rest: seq<string>)
    requires cut <= |text| && IsLine(text[..cut])
    requires AreLines(rest) && Concat(rest) == text[cut..]
    ensures AreLines([text[..cut]] + rest) && Concat([text[..cut]] + rest) == text
  {
    var lines := [text[..cut]] + rest;
    assert lines[1..] == rest && text[..cut] + text[cut..] == text;
    assert forall i :: 0 <= i < |rest| ==> lines[i + 1] == rest[i];
  }

  lemma CutIsLine(text: string, i: nat)
    requires i == LineEnd(text) < |text|
    ensures IsLine(text[..i + 1])
  {
    LineEndFinds(text);
  }

  lemma LinesOfTail(text: string)
    requires text != "" && LineEnd(text) == |text|
    ensures IsTail(text) && Lines(text) == [text] && AreLines([text]) && Concat([text]) == text
  {
    LineEndFinds(text);
    assert [text][1..] == [];
  }

  /** Cutting loses nothing: the lines of a text are lines and put together give the text. */
  lemma {:induction false} LinesAreTheText(text: string)
    ensures AreLines(Lines(text)) && Concat(Lines(text)) == text
    decreases |text|
  {
    var cut := LineEnd(text) + 1;
    if cut <= |text| {
      CutIsLine(text, cut - 1);
      LinesAreTheText(text[cut..]);
      AreLinesCons(text, cut, Lines(text[cut..]));
    } else if text != "" {
      LinesOfTail(text);
    }
  }

  function Keep(lines: seq<string>, noise: string -> bool): seq<string> {
    if lines == [] then [] else (if noise(lines[0]) then [] else [lines[0]]) + Keep(lines[1..], noise)
  }

  lemma KeepOne(line: string, rest: seq<string>, noise: string -> bool)
    ensures Keep([line] + rest, noise) == (if noise(line) then [] else [line]) + Keep(rest, noise)
  {
    assert ([line] + rest)[1..] == rest;
  }

  /** `owed` says what is still to be sent for a text: a complete line at its head counts for itself alone. */
  ghost predicate OwedByLine(owed: string -> seq<string>, noise: string -> bool) {
    forall line: string, rest: string ::
      IsLine(line) ==> owed(line + rest) == (if noise(line) then [] else [line]) + owed(rest)
  }

  /** The inner loop: send the complete lines of the buffer and keep what follows them. */
  method SendLines(buffer: string, already: seq<string>, noise: string -> bool, ghost owed: string -> seq<string>)
    returns (rest: string, sent: seq<string>)
    requires OwedByLine(owed, noise)
    ensures sent + owed(rest) == already + owed(buffer)
    ensures LineEnd(rest) == |rest|
  {
    rest, sent := buffer, already;
    while LineEnd(rest) < |rest|
      invariant sent + owed(rest) == already + owed(buffer)
      decreases |rest|
    {
      var i := LineEnd(rest);
      var line := rest[..i + 1];
      LineEndFinds(rest);
      var tail := rest[i + 1..];
      assert IsLine(line) && rest == line + tail;
      assert owed(line + tail) == (if noise(line) then [] else [line]) + owed(tail);
      assert sent + ([line] + owed(tail)) == sent + [line] + owed(tail);
      assert sent + ([] + owed(tail)) == sent + owed(tail);
      rest := tail;
      if !noise(line) {
        sent := sent + [line];
      }
    }
  }

  /** What a text read so far owes when `later` is still to come. */
  lemma LinesAreOwedByLine(later: string, noise: string -> bool)
    ensures OwedByLine(text => Keep(Lines(text + later), noise), noise)
  {
    forall line: string, rest: string | IsLine(line)
      ensures Keep(Lines((line + rest) + later), noise)
           == (if noise(line) then [] else [line]) + Keep(Lines(rest + later), noise)
    {
      assert (line + rest) + later == line + (rest + later);
      FirstLine(line, rest + later);
      KeepOne(line, Lines(rest + later), noise);
    }
  }

  lemma NextChunk(chunks: seq<string>, i: nat, buffer: string)
    requires i < |chunks|
    ensures buffer + Concat(chunks[i..]) == (buffer + chunks[i]) + Concat(chunks[i + 1..])
  {
    assert chunks[i..][1..] == chunks[i + 1..];
  }

  lemma LastPiece(buffer: string, noise: string -> bool)
    requires LineEnd(buffer) == |buffer|
    ensures Keep(Lines(buffer), noise) == if buffer == "" || noise(buffer) then [] else [buffer]
  {
    assert [buffer][1..] == [];
  }

  /** `_pump` for a given test for noise: however the text is cut, the lines of the whole text without the noise. */
  method Pump(chunks: seq<string>, noise: string -> bool) returns (sent: seq<string>)
    ensures sent == Keep(Lines(Concat(chunks)), noise)
  {
    ghost var owed := Keep(Lines(Concat(chunks)), noise);
    sent := [];
    var buffer := "";
    var i := 0;
    assert chunks[0..] == chunks && buffer + Concat(chunks) == Concat(chunks) && sent + owed == owed;
    while i < |chunks|
      invariant i <= |chunks| && LineEnd(buffer) == |buffer|
      invariant sent + Keep(Lines(buffer + Concat(chunks[i..])), noise) == owed
    {
      var text := chunks[i];
      ghost var later := Concat(chunks[i + 1..]);
      NextChunk(chunks, i, buffer);
      i := i + 1;
      if text == "" {
        assert buffer + text == buffer;
        continue;
      }
      LinesAreOwedByLine(later, noise);
      buffer, sent := SendLines(buffer + text, sent, noise, unread => Keep(Lines(unread + later), noise));
    }
    assert buffer + Concat(chunks[i..]) == buffer;
    LastPiece(buffer, noise);
    if buffer != "" && !noise(buffer) {
      sent := sent + [buffer];
    }
  }

  /** What the client sends for an agent's output. */
  method PumpAgentOutput(chunks: seq<string>) returns (sent: seq<string>)
    ensures sent == Keep(Lines(Concat(chunks)), IsNoiseLine)
  {
    sent := Pump(chunks, IsNoiseLine);
  }
}
