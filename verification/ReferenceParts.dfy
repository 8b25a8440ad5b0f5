/** What can be read out of a text that ends in a written line: the line, if it is read, is read whole. */
module ReferenceParts {
  import opened Basics
  import opened Text
  import opened FileReferences
  import opened Stripping
  import opened ReferenceSearch

  /**
   A part of a text that is made of `head` and a written line: a piece of either, or an end of the head with the
   line.
   */
  ghost predicate IsPart(c: string, head: string, suffix: string) {
    IsPiece(c, head) || IsPiece(c, suffix) || exists a :: EndsWith(c, head, suffix, a)
  }

  predicate EndsWith(c: string, head: string, suffix: string, a: int) {
    0 <= a <= |head| && c == head[a..] + suffix
  }

  ghost predicate IsLine(suffix: string) {
    suffix == "" || HasLineAt(suffix, 0)
  }

  lemma PartIsPiece(c: string, head: string, suffix: string)
    requires IsPart(c, head, suffix)
    ensures IsPiece(c, head + suffix)
  {
    var text := head + suffix;
    assert IsSlice(head, text, 0, |head|) && IsSlice(suffix, text, |head|, |text|);
    if IsPiece(c, head) {
      PieceOfPiece(c, head, text);
    } else if IsPiece(c, suffix) {
      PieceOfPiece(c, suffix, text);
    } else {
      var a :| EndsWith(c, head, suffix, a);
      assert IsSlice(c, text, a, |text|);
    }
  }

  lemma WholeIsPart(head: string, suffix: string)
    ensures IsPart(head + suffix, head, suffix)
  {
    assert EndsWith(head + suffix, head, suffix, 0);
  }

  lemma PieceOfPart(c: string, d: string, head: string, suffix: string)
    requires IsPiece(c, d) && (IsPiece(d, head) || IsPiece(d, suffix))
    ensures IsPart(c, head, suffix)
  {
    if IsPiece(d, head) {
      PieceOfPiece(c, d, head);
    } else {
      PieceOfPiece(c, d, suffix);
    }
  }

  /** A stretch of an end of the head with the line, if it does not cut the line at its end. */
  lemma StretchIsPart(c: string, head: string, suffix: string, a: nat, i: nat, e: nat)
    requires EndsWith(c, head, suffix, a) && i <= e <= |c|
    requires i <= |head| - a ==> EndsWhole(c, |head| - a, e)
    ensures IsPart(c[i..e], head, suffix)
  {
    var h := |head| - a;
    if i > h {
      assert c[i..e] == suffix[i - h..e - h];
      assert IsSlice(c[i..e], suffix, i - h, e - h);
    } else if e <= h {
      assert c[i..e] == head[a + i..a + e];
      assert IsSlice(c[i..e], head, a + i, a + e);
    } else {
      assert c[i..e] == head[a + i..] + suffix;
      assert EndsWith(c[i..e], head, suffix, a + i);
    }
  }

  lemma LineMoves(c: string, head: string, suffix: string, a: nat)
    requires EndsWith(c, head, suffix, a) && HasLineAt(suffix, 0)
    ensures HasLineAt(c, |head| - a)
  {
    var h := |head| - a;
    assert c[h] == suffix[0] && c[h + 1] == suffix[1];
    forall k | h + 2 <= k < |c| ensures IsDigit(c[k]) {
      assert c[k] == suffix[k - h];
    }
  }

  /**
   Which kind of part a text is: an end of the head with a line that is there, or else, with `a` negative, a piece.
   */
  lemma PartKind(c: string, head: string, suffix: string) returns (a: int)
    requires IsPart(c, head, suffix)
    ensures a < 0 ==> IsPiece(c, head) || IsPiece(c, suffix)
    ensures a >= 0 ==> suffix != "" && EndsWith(c, head, suffix, a)
  {
    a := -1;
    if !IsPiece(c, head) && !IsPiece(c, suffix) {
      a :| EndsWith(c, head, suffix, a);
      assert suffix == "" ==> IsSlice(c, head, a, |head|);
    }
  }

  lemma MatchIsPart(c: string, head: string, suffix: string, i: nat)
    requires IsLine(suffix) && IsPart(c, head, suffix) && !HasDoubleSlash(c) && i < |c| && MatchEnd(c, i).Some?
    ensures IsPart(c[i..MatchEnd(c, i).value], head, suffix)
  {
    var e := MatchEnd(c, i).value;
    var a := PartKind(c, head, suffix);
    if a < 0 {
      SliceIsPiece(c, i, e);
      PieceOfPart(c[i..e], c, head, suffix);
    } else {
      LineMoves(c, head, suffix, a);
      if i <= |head| - a {
        MatchEndsWhole(c, i, |head| - a);
      }
      StretchIsPart(c, head, suffix, a, i, e);
    }
  }

  lemma {:induction false} LeftEdgeAt(s: string, i: nat, space: char -> bool, k: nat)
    requires i <= k < |s| && !space(s[k])
    ensures LeftEdge(s, i, space) <= k
    decreases k - i
  {
    if i < k && space(s[i]) {
      LeftEdgeAt(s, i + 1, space, k);
    }
  }

  lemma DigitEndStays(t: string)
    requires t != "" && IsDigit(t[|t| - 1])
    ensures StripTrimmed(t) == t
  {
    UnquotedShrinks(t);
    UnbracketedShrinks(t);
    WithoutTailShrinks(t);
  }

  lemma TrimBeforeDigit(c: string) returns (left: nat)
    requires c != "" && IsDigit(c[|c| - 1])
    ensures left == LeftEdge(c, 0, ScriptSpace) && left < |c| && Trim(c, ScriptSpace) == c[left..]
  {
    left := LeftEdge(c, 0, ScriptSpace);
    LeftEdgeAt(c, 0, ScriptSpace, |c| - 1);
  }

  /** Stripping a text that ends in a digit removes white space at its start, no more. */
  lemma StripBeforeDigit(c: string) returns (left: nat)
    requires c != "" && IsDigit(c[|c| - 1])
    ensures left == LeftEdge(c, 0, ScriptSpace) && left < |c| && Strip(c) == c[left..]
  {
    left := TrimBeforeDigit(c);
    DigitEndStays(c[left..]);
  }

  lemma StripIsPart(c: string, head: string, suffix: string)
    requires IsLine(suffix) && IsPart(c, head, suffix)
    ensures IsPart(Strip(c), head, suffix)
  {
    var a := PartKind(c, head, suffix);
    if a < 0 {
      StripIsPiece(c);
      PieceOfPart(Strip(c), c, head, suffix);
    } else {
      LineMoves(c, head, suffix, a);
      var left := StripBeforeDigit(c);
      LeftEdgeAt(c, 0, ScriptSpace, |head| - a);
      StretchIsPart(c, head, suffix, a, left, |c|);
      assert c[left..|c|] == c[left..];
    }
  }

  /** What the search returns of a part is a part again, without white space. */
  lemma FoundIsPart(c: string, head: string, suffix: string, i: nat)
    requires IsLine(suffix) && IsPart(c, head, suffix) && !HasDoubleSlash(c) && i < |c| && MatchEnd(c, i).Some?
    ensures var found := Strip(c[i..MatchEnd(c, i).value]);
            IsPart(found, head, suffix) && !HasSpace(found)
  {
    var e := MatchEnd(c, i).value;
    var found := c[i..e];
    MatchIsPart(c, head, suffix, i);
    StripIsPart(found, head, suffix);
    MatchHasNoSpace(c, i);
    forall k | 0 <= k < |found| ensures !ScriptSpace(found[k]) {
      assert found[k] == c[i + k];
    }
    StripIsPiece(found);
    PieceHasNoSpace(Strip(found), found);
  }

  lemma {:induction false} ExtractHolds(s: string, i: nat, ends: nat -> Option<nat>, clean: string -> string,
                                        good: string -> bool)
    requires i <= |s|
    requires forall j: nat :: j < |s| && IsMatch(s, j, ends(j)) ==> good(clean(s[j..ends(j).value]))
    ensures forall c :: c in ExtractFrom(s, i, ends, clean) ==> good(c)
    decreases |s| - i
  {
    if i == |s| {
    } else if IsMatch(s, i, ends(i)) {
      ExtractHolds(s, ends(i).value, ends, clean, good);
    } else {
      ExtractHolds(s, i + 1, ends, clean, good);
    }
  }

  ghost function Parts(head: string, suffix: string): string -> bool {
    c => IsPart(c, head, suffix) && !HasSpace(c)
  }

  lemma ExtractsParts(c: string, head: string, suffix: string)
    requires IsLine(suffix) && IsPart(c, head, suffix) && !HasDoubleSlash(c)
    ensures forall found :: found in Extract(c) ==> Parts(head, suffix)(found)
  {
    var ends, clean, good := Ends(c), Stripper(), Parts(head, suffix);
    forall j: nat | j < |c| && IsMatch(c, j, ends(j)) ensures good(clean(c[j..ends(j).value])) {
      FoundIsPart(c, head, suffix, j);
    }
    ExtractHolds(c, 0, ends, clean, good);
  }
}
