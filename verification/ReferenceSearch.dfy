/** What the search for candidates (`extractFileReferenceCandidates`) finds in a text. */
module ReferenceSearch {
  import opened Basics
  import opened Text
  import opened FileReferences
  import opened Stripping

  lemma {:induction false} RunHolds(s: string, i: nat, isIn: char -> bool, k: nat)
    requires i <= |s| && i <= k < RunEnd(s, i, isIn)
    ensures isIn(s[k])
    decreases |s| - i
  {
    if k == i {
    } else {
      RunHolds(s, i + 1, isIn, k);
    }
  }

  ghost predicate NoSpaceIn(s: string, i: nat, j: nat)
    requires i <= j <= |s|
  {
    forall k :: i <= k < j ==> !ScriptSpace(s[k])
  }

  ghost predicate Dark(isIn: char -> bool) {
    forall c :: isIn(c) ==> !ScriptSpace(c)
  }

  lemma RunHasNoSpace(s: string, i: nat, isIn: char -> bool)
    requires i <= |s| && Dark(isIn)
    ensures NoSpaceIn(s, i, RunEnd(s, i, isIn))
  {
    forall k | i <= k < RunEnd(s, i, isIn) ensures !ScriptSpace(s[k]) {
      RunHolds(s, i, isIn, k);
    }
  }

  lemma NoSpaceJoins(s: string, i: nat, j: nat, k: nat)
    requires i <= j <= k <= |s| && NoSpaceIn(s, i, j) && NoSpaceIn(s, j, k)
    ensures NoSpaceIn(s, i, k)
  {
  }

  lemma LettersOf(s: string, word: string)
    requires Lower(s) == word && forall k :: 0 <= k < |word| ==> 'a' <= word[k] <= 'z'
    ensures NoSpaceIn(s, 0, |s|)
  {
    forall k | 0 <= k < |s| ensures !ScriptSpace(s[k]) {
      assert LowerOf(s[k]) == word[k];
    }
  }

  lemma SchemeHasNoSpace(s: string)
    requires HasScheme(s, "file")
    ensures |s| >= 7 && NoSpaceIn(s, 0, 7)
  {
    var word := s[..4];
    LettersOf(word, "file");
    forall k | 0 <= k < 7 ensures !ScriptSpace(s[k]) {
      assert k < 4 ==> s[k] == word[k];
    }
  }

  lemma NoSpaceShifts(s: string, j: nat, n: nat)
    requires j + n <= |s| && NoSpaceIn(s[j..], 0, n)
    ensures NoSpaceIn(s, j, j + n)
  {
    forall k | j <= k < j + n ensures !ScriptSpace(s[k]) {
      assert s[j..][k - j] == s[k];
    }
  }

  lemma AddressHasNoSpace(s: string, i: nat)
    requires i < |s|
    ensures AddressEnd(s, i).Some? ==> NoSpaceIn(s, i, AddressEnd(s, i).value)
  {
    var j := if s[i] == '@' then i + 1 else i;
    if AddressEnd(s, i).Some? {
      SchemeHasNoSpace(s[j..]);
      NoSpaceShifts(s, j, 7);
      RunHasNoSpace(s, j + 7, GoesOn);
      NoSpaceJoins(s, i, j, j + 7);
      NoSpaceJoins(s, i, j + 7, AddressEnd(s, i).value);
    }
  }

  lemma NameHasNoSpace(s: string, i: nat) returns (end: nat)
    requires i <= |s|
    ensures end == RunEnd(s, i, IsNamePart) && i <= end && NoSpaceIn(s, i, end)
  {
    end := RunEnd(s, i, IsNamePart);
    RunHasNoSpace(s, i, IsNamePart);
  }

  lemma RestHasNoSpace(s: string, i: nat) returns (end: nat)
    requires i <= |s|
    ensures end == RunEnd(s, i, GoesOn) && i <= end && NoSpaceIn(s, i, end)
  {
    end := RunEnd(s, i, GoesOn);
    RunHasNoSpace(s, i, GoesOn);
  }

  lemma SlashedHasNoSpace(s: string, i: nat)
    requires i < |s|
    ensures SlashedEnd(s, i).Some? ==> NoSpaceIn(s, i, SlashedEnd(s, i).value)
  {
    if SlashedEnd(s, i).Some? {
      var k := NameHasNoSpace(s, i);
      var end := RestHasNoSpace(s, k + 1);
      NoSpaceJoins(s, i, k, k + 1);
      NoSpaceJoins(s, i, k + 1, end);
    }
  }

  lemma {:induction false} ColonsHaveNoSpace(s: string, i: nat, n: nat)
    requires i <= |s|
    ensures NoSpaceIn(s, i, ColonsEnd(s, i, n))
    decreases n
  {
    if n > 0 && i < |s| && s[i] == ':' && SomeEnd(s, i + 1, IsDigit).Some? {
      RunHasNoSpace(s, i + 1, IsDigit);
      ColonsHaveNoSpace(s, SomeEnd(s, i + 1, IsDigit).value, n - 1);
    }
  }

  lemma ColumnHasNoSpace(s: string, i: nat)
    requires i <= |s|
    ensures NoSpaceIn(s, i, ColumnEnd(s, i))
  {
    if i < |s| {
      RunHasNoSpace(s, i + 1, IsDigit);
    }
  }

  lemma AnchorHasNoSpace(s: string, i: nat)
    requires i <= |s|
    ensures NoSpaceIn(s, i, AnchorEnd(s, i))
  {
    if i + 1 < |s| && SomeEnd(s, i + 2, IsDigit).Some? {
      RunHasNoSpace(s, i + 2, IsDigit);
      ColumnHasNoSpace(s, SomeEnd(s, i + 2, IsDigit).value);
    }
  }

  /** The dot of a name that matches. */
  lemma NamedDot(s: string, i: nat) returns (dot: nat)
    requires i < |s| && NamedEnd(s, i).Some?
    ensures i < dot < RunEnd(s, i, IsNamePart) && dot + 1 < |s| && IsNameChar(s[dot + 1]) && s[dot] == '.'
    ensures NamedEnd(s, i) == Some(AnchorEnd(s, NumbersEnd(s, dot)))
  {
    dot := LastDot(s, i, RunEnd(s, i, IsNamePart) - 1).value;
  }

  function NumbersEnd(s: string, dot: nat): (end: nat)
    requires dot < |s|
    ensures dot < end <= |s|
  {
    ColonsEnd(s, ExtensionEnd(s, dot + 1), 2)
  }

  lemma ExtensionHasNoSpace(s: string, i: nat)
    requires i <= |s|
    ensures NoSpaceIn(s, i, ExtensionEnd(s, i))
  {
    RunHasNoSpace(s, i, IsNameChar);
  }

  lemma NumbersHaveNoSpace(s: string, dot: nat) returns (end: nat)
    requires dot < |s|
    ensures end == NumbersEnd(s, dot) && NoSpaceIn(s, dot + 1, end)
  {
    end := NumbersEnd(s, dot);
    ExtensionHasNoSpace(s, dot + 1);
    ColonsHaveNoSpace(s, ExtensionEnd(s, dot + 1), 2);
    NoSpaceJoins(s, dot + 1, ExtensionEnd(s, dot + 1), end);
  }

  lemma DotHasNoSpace(s: string, i: nat) returns (dot: nat, numbers: nat)
    requires i < |s| && NamedEnd(s, i).Some?
    ensures i < dot + 1 <= numbers <= |s| && NoSpaceIn(s, i, dot + 1) && NoSpaceIn(s, dot + 1, numbers)
    ensures NamedEnd(s, i) == Some(AnchorEnd(s, numbers))
  {
    dot := NamedDot(s, i);
    RunHasNoSpace(s, i, IsNamePart);
    numbers := NumbersHaveNoSpace(s, dot);
  }

  lemma NamedHasNoSpace(s: string, i: nat)
    requires i < |s|
    ensures NamedEnd(s, i).Some? ==> NoSpaceIn(s, i, NamedEnd(s, i).value)
  {
    if NamedEnd(s, i).Some? {
      var dot, numbers := DotHasNoSpace(s, i);
      AnchorHasNoSpace(s, numbers);
      NoSpaceJoins(s, i, dot + 1, numbers);
      NoSpaceJoins(s, i, numbers, AnchorEnd(s, numbers));
    }
  }

  lemma MatchHasNoSpace(s: string, i: nat)
    requires i < |s|
    ensures MatchEnd(s, i).Some? ==> NoSpaceIn(s, i, MatchEnd(s, i).value)
  {
    AddressHasNoSpace(s, i);
    SlashedHasNoSpace(s, i);
    NamedHasNoSpace(s, i);
  }

  /** A written line from `h` to the end. */
  ghost predicate HasLineAt(s: string, h: nat) {
    h + 2 < |s| && s[h] == '#' && s[h + 1] == 'L' && forall k :: h + 2 <= k < |s| ==> IsDigit(s[k])
  }

  lemma RunBeforeLine(s: string, i: nat, h: nat, isIn: char -> bool)
    requires HasLineAt(s, h) && i <= h && !isIn('#')
    ensures RunEnd(s, i, isIn) <= h
  {
    if RunEnd(s, i, isIn) > h {
      RunHolds(s, i, isIn, h);
    }
  }

  lemma {:induction false} RunToEnd(s: string, i: nat, isIn: char -> bool)
    requires i <= |s| && forall k :: i <= k < |s| ==> isIn(s[k])
    ensures RunEnd(s, i, isIn) == |s|
    decreases |s| - i
  {
    if i == |s| {
    } else {
      RunToEnd(s, i + 1, isIn);
    }
  }

  /** A match ends before a written line or together with it. */
  ghost predicate EndsWhole(s: string, h: nat, end: nat) {
    end <= h || end == |s|
  }

  lemma RestEndsWhole(s: string, i: nat, h: nat)
    requires HasLineAt(s, h) && i <= |s|
    ensures EndsWhole(s, h, RunEnd(s, i, GoesOn))
  {
    var end := RunEnd(s, i, GoesOn);
    assert h + 2 <= end < |s| ==> IsDigit(s[end]);
  }

  lemma SlashedEndsWhole(s: string, i: nat, h: nat)
    requires HasLineAt(s, h) && i <= h
    ensures SlashedEnd(s, i).Some? ==> EndsWhole(s, h, SlashedEnd(s, i).value)
  {
    if SlashedEnd(s, i).Some? {
      RestEndsWhole(s, RunEnd(s, i, IsNamePart) + 1, h);
    }
  }

  lemma {:induction false} ColonsBeforeLine(s: string, i: nat, n: nat, h: nat)
    requires HasLineAt(s, h) && i <= h
    ensures ColonsEnd(s, i, n) <= h
    decreases n
  {
    if n > 0 && s[i] == ':' && SomeEnd(s, i + 1, IsDigit).Some? {
      RunBeforeLine(s, i + 1, h, IsDigit);
      ColonsBeforeLine(s, SomeEnd(s, i + 1, IsDigit).value, n - 1, h);
    }
  }

  lemma ColumnBeforeLine(s: string, i: nat, h: nat)
    requires HasLineAt(s, h) && i <= h
    ensures ColumnEnd(s, i) <= h
  {
    if i < h {
      RunBeforeLine(s, i + 1, h, IsDigit);
    }
  }

  lemma AnchorIsLine(s: string, h: nat)
    requires HasLineAt(s, h)
    ensures AnchorEnd(s, h) == |s|
  {
    RunToEnd(s, h + 2, IsDigit);
  }

  lemma AnchorEndsWhole(s: string, i: nat, h: nat)
    requires HasLineAt(s, h) && i <= h
    ensures EndsWhole(s, h, AnchorEnd(s, i))
  {
    if i == h {
      AnchorIsLine(s, h);
    } else if i + 1 < h {
      RunBeforeLine(s, i + 2, h, IsDigit);
      ColumnBeforeLine(s, RunEnd(s, i + 2, IsDigit), h);
    }
  }

  lemma NumbersBeforeLine(s: string, dot: nat, h: nat)
    requires HasLineAt(s, h) && dot < h
    ensures NumbersEnd(s, dot) <= h
  {
    RunBeforeLine(s, dot + 1, h, IsNameChar);
    ColonsBeforeLine(s, ExtensionEnd(s, dot + 1), 2, h);
  }

  lemma NamedEndsWhole(s: string, i: nat, h: nat)
    requires HasLineAt(s, h) && i <= h
    ensures NamedEnd(s, i).Some? ==> EndsWhole(s, h, NamedEnd(s, i).value)
  {
    if NamedEnd(s, i).Some? {
      var dot := NamedDot(s, i);
      RunBeforeLine(s, i, h, IsNamePart);
      NumbersBeforeLine(s, dot, h);
      AnchorEndsWhole(s, NumbersEnd(s, dot), h);
    }
  }

  lemma NoAddressInside(s: string, i: nat)
    requires i < |s| && !HasDoubleSlash(s)
    ensures AddressEnd(s, i).None?
  {
    var j := if s[i] == '@' then i + 1 else i;
    SliceIsPiece(s, j, |s|);
    PieceHasNoDoubleSlash(s[j..|s|], s);
    assert s[j..|s|] == s[j..];
    if HasScheme(s[j..], "file") {
      SchemeHasDoubleSlash(s[j..], "file");
    }
  }

  /** The search never cuts a written line in two. */
  lemma MatchEndsWhole(s: string, i: nat, h: nat)
    requires HasLineAt(s, h) && i <= h && !HasDoubleSlash(s)
    ensures MatchEnd(s, i).Some? ==> EndsWhole(s, h, MatchEnd(s, i).value)
  {
    NoAddressInside(s, i);
    SlashedEndsWhole(s, i, h);
    NamedEndsWhole(s, i, h);
  }
}
