/**
 What stripping a reference (`stripFileReference`) keeps: how long the result is, and that it is a piece of the
 text.
 */
module Stripping {
  import opened Basics
  import opened Text
  import opened FileReferences

  /** Nothing that `Strip` removes. */
  predicate IsBare(s: string) {
    s != "" && !ScriptSpace(s[0]) && !ScriptSpace(s[|s| - 1]) && !IsQuoted(s) && !IsBracketed(s) && !IsTail(s[|s| - 1])
  }

  lemma {:induction false} UnquotedShrinks(s: string)
    ensures if IsQuoted(s) then |Unquoted(s)| < |s| else Unquoted(s) == s
    decreases |s|
  {
    if IsQuoted(s) {
      UnquotedShrinks(Inner(s));
    }
  }

  lemma {:induction false} UnbracketedShrinks(s: string)
    ensures if IsBracketed(s) then |Unbracketed(s)| < |s| else Unbracketed(s) == s
    decreases |s|
  {
    if IsBracketed(s) {
      UnbracketedShrinks(Inner(s));
    }
  }

  lemma {:induction false} WithoutTailShrinks(s: string)
    ensures if s != "" && IsTail(s[|s| - 1]) then |WithoutTail(s)| < |s| else WithoutTail(s) == s
  {
    if s != "" && IsTail(s[|s| - 1]) {
      WithoutTailShrinks(s[..|s| - 1]);
    }
  }

  predicate IsTrimmed(s: string) {
    s == "" || (!ScriptSpace(s[0]) && !ScriptSpace(s[|s| - 1]))
  }

  lemma TrimShrinks(s: string)
    ensures if IsTrimmed(s) then Trim(s, ScriptSpace) == s else |Trim(s, ScriptSpace)| < |s|
  {
  }

  lemma StripBracketsShrinks(s: string)
    ensures |StripBrackets(s)| <= |s|
    ensures |StripBrackets(s)| == |s| ==> !IsBracketed(s) && (s != "" ==> !IsTail(s[|s| - 1]))
  {
    UnbracketedShrinks(s);
    WithoutTailShrinks(Unbracketed(s));
  }

  lemma StripTrimmedShrinks(s: string)
    ensures |StripTrimmed(s)| <= |s|
    ensures |StripTrimmed(s)| == |s| ==> !IsQuoted(s) && |StripBrackets(s)| == |s|
  {
    UnquotedShrinks(s);
    StripBracketsShrinks(Unquoted(s));
  }

  lemma StripShrinks(s: string)
    ensures |Strip(s)| <= |s|
    ensures |Strip(s)| == |s| ==> IsTrimmed(s) && |StripTrimmed(s)| == |s|
  {
    TrimShrinks(s);
    StripTrimmedShrinks(Trim(s, ScriptSpace));
  }

  lemma BareIsFixed(s: string)
    requires IsBare(s)
    ensures Strip(s) == s
  {
    TrimShrinks(s);
    UnquotedShrinks(s);
    UnbracketedShrinks(s);
    WithoutTailShrinks(s);
  }

  /** Stripping leaves exactly the bare texts alone, and shortens any other. */
  lemma StripFixpoints(s: string)
    ensures if s == "" || IsBare(s) then Strip(s) == s else |Strip(s)| < |s|
  {
    StripShrinks(s);
    StripTrimmedShrinks(s);
    StripBracketsShrinks(s);
    if IsBare(s) {
      BareIsFixed(s);
    }
  }

  lemma StripIsNotLonger(s: string)
    ensures |Strip(s)| <= |s|
  {
    StripShrinks(s);
  }

  lemma WithoutPrefixShrinks(value: string)
    ensures |WithoutPrefix(value)| <= |value|
  {
    if |value| > 1 {
      StripIsNotLonger(value[1..]);
    }
  }

  lemma StripPrefixShrinks(s: string)
    ensures |StripPrefix(s)| <= |s|
  {
    StripShrinks(s);
    WithoutPrefixShrinks(Strip(s));
  }

  lemma BareKeepsItself(s: string)
    requires IsBare(s) && s[0] != '@'
    ensures StripPrefix(s) == s
  {
    BareIsFixed(s);
  }

  lemma TrimKeepsFirst(s: string)
    requires s != "" && !ScriptSpace(s[0])
    ensures Trim(s, ScriptSpace) != "" && Trim(s, ScriptSpace)[0] == s[0]
  {
  }

  lemma {:induction false} WithoutTailKeeps(s: string)
    requires s != "" && !IsTail(s[0])
    ensures WithoutTail(s) != "" && WithoutTail(s)[0] == s[0]
  {
    if IsTail(s[|s| - 1]) {
      WithoutTailKeeps(s[..|s| - 1]);
    }
  }

  lemma AtStays(s: string)
    requires s != "" && s[0] == '@'
    ensures Strip(s) != "" && Strip(s)[0] == '@'
  {
    TrimKeepsFirst(s);
    var trimmed := Trim(s, ScriptSpace);
    UnquotedShrinks(trimmed);
    UnbracketedShrinks(trimmed);
    WithoutTailKeeps(trimmed);
  }

  lemma TrimIsTrimmed(s: string)
    ensures IsTrimmed(Trim(s, ScriptSpace)) && |Trim(s, ScriptSpace)| <= |s|
    ensures |Trim(s, ScriptSpace)| == |s| ==> Trim(s, ScriptSpace) == s
  {
  }

  /** A stretch of a text. */
  ghost predicate IsPiece(c: string, t: string) {
    exists a, b :: IsSlice(c, t, a, b)
  }

  predicate IsSlice(c: string, t: string, a: int, b: int) {
    0 <= a <= b <= |t| && c == t[a..b]
  }

  lemma SliceOfSlice<T>(t: seq<T>, i: nat, j: nat, a: nat, b: nat)
    requires i <= j <= |t| && a <= b <= j - i
    ensures t[i..j][a..b] == t[i + a..i + b]
  {
    var inner, direct := t[i..j][a..b], t[i + a..i + b];
    forall k | 0 <= k < |inner| ensures inner[k] == direct[k] {
    }
    assert inner == direct;
  }

  lemma PieceOfPiece(c: string, d: string, t: string)
    requires IsPiece(c, d) && IsPiece(d, t)
    ensures IsPiece(c, t)
  {
    var a, b :| IsSlice(c, d, a, b);
    var i, j :| IsSlice(d, t, i, j);
    SliceOfSlice(t, i, j, a, b);
    assert IsSlice(c, t, i + a, i + b);
  }

  lemma SliceIsPiece(t: string, a: nat, b: nat)
    requires a <= b <= |t|
    ensures IsPiece(t[a..b], t)
  {
    assert IsSlice(t[a..b], t, a, b);
  }

  lemma WholeIsPiece(t: string)
    ensures IsPiece(t, t)
  {
    assert IsSlice(t, t, 0, |t|);
  }

  lemma TrimIsPiece(s: string)
    ensures IsPiece(Trim(s, ScriptSpace), s)
  {
    var left := LeftEdge(s, 0, ScriptSpace);
    assert IsSlice(Trim(s, ScriptSpace), s, left, RightEdge(s, left, |s|, ScriptSpace));
  }

  lemma TrimmedMiddle(s: string, a: nat, b: nat)
    requires a <= b <= |s|
    ensures IsPiece(Trim(s[a..b], ScriptSpace), s)
  {
    var middle := s[a..b];
    var trimmed := Trim(middle, ScriptSpace);
    TrimIsPiece(middle);
    SliceIsPiece(s, a, b);
    PieceOfPiece(trimmed, middle, s);
  }

  lemma InnerIsPiece(s: string)
    requires |s| >= 2
    ensures IsPiece(Inner(s), s)
  {
    TrimmedMiddle(s, 1, |s| - 1);
  }

  lemma {:induction false} UnquotedIsPiece(s: string)
    ensures IsPiece(Unquoted(s), s)
    decreases |s|
  {
    if IsQuoted(s) {
      UnquotedIsPiece(Inner(s));
      InnerIsPiece(s);
      PieceOfPiece(Unquoted(s), Inner(s), s);
    } else {
      WholeIsPiece(s);
    }
  }

  lemma {:induction false} UnbracketedIsPiece(s: string)
    ensures IsPiece(Unbracketed(s), s)
    decreases |s|
  {
    if IsBracketed(s) {
      UnbracketedIsPiece(Inner(s));
      InnerIsPiece(s);
      PieceOfPiece(Unbracketed(s), Inner(s), s);
    } else {
      WholeIsPiece(s);
    }
  }

  lemma {:induction false} WithoutTailIsPiece(s: string)
    ensures IsPiece(WithoutTail(s), s)
  {
    if s != "" && IsTail(s[|s| - 1]) {
      WithoutTailIsPiece(s[..|s| - 1]);
      SliceIsPiece(s, 0, |s| - 1);
      PieceOfPiece(WithoutTail(s), s[..|s| - 1], s);
    } else {
      WholeIsPiece(s);
    }
  }

  /** What a text is stripped to is a piece of it. */
  lemma StripIsPiece(s: string)
    ensures IsPiece(Strip(s), s)
  {
    var trimmed := Trim(s, ScriptSpace);
    var unquoted := Unquoted(trimmed);
    var unbracketed := Unbracketed(unquoted);
    TrimIsPiece(s);
    UnquotedIsPiece(trimmed);
    UnbracketedIsPiece(unquoted);
    WithoutTailIsPiece(unbracketed);
    PieceOfPiece(unquoted, trimmed, s);
    PieceOfPiece(unbracketed, unquoted, s);
    PieceOfPiece(Strip(s), unbracketed, s);
  }

  lemma WithoutPrefixIsPiece(value: string)
    ensures IsPiece(WithoutPrefix(value), value)
  {
    WholeIsPiece(value);
    if |value| > 1 && value[0] == '@' {
      StripIsPiece(value[1..]);
      SliceIsPiece(value, 1, |value|);
      PieceOfPiece(Strip(value[1..]), value[1..], value);
    }
  }

  lemma StripPrefixIsPiece(s: string)
    ensures IsPiece(StripPrefix(s), s)
  {
    StripIsPiece(s);
    WithoutPrefixIsPiece(Strip(s));
    PieceOfPiece(StripPrefix(s), Strip(s), s);
  }

  lemma SplitLineIsPiece(value: string)
    ensures IsPiece(SplitLine(value).path, value)
  {
    WholeIsPiece(value);
    forall found: Found | found.at <= |value| ensures IsPiece(At(value, found).path, value) {
      TrimIsPiece(value[..found.at]);
      SliceIsPiece(value, 0, found.at);
      PieceOfPiece(At(value, found).path, value[..found.at], value);
    }
  }

  lemma PieceHasNoSpace(c: string, t: string)
    requires IsPiece(c, t) && !HasSpace(t)
    ensures !HasSpace(c)
  {
    var a, b :| IsSlice(c, t, a, b);
    forall i | 0 <= i < |c| ensures !ScriptSpace(c[i]) {
      assert c[i] == t[a + i];
    }
  }

  predicate HasDoubleSlash(s: string) {
    exists i :: 0 <= i < |s| - 1 && s[i] == '/' && s[i + 1] == '/'
  }

  lemma PieceHasNoDoubleSlash(c: string, t: string)
    requires IsPiece(c, t) && !HasDoubleSlash(t)
    ensures !HasDoubleSlash(c)
  {
    var a, b :| IsSlice(c, t, a, b);
    forall i | 0 <= i < |c| - 1 && c[i] == '/' ensures c[i + 1] != '/' {
      assert t[a + i] == '/';
    }
  }

  lemma SchemeHasDoubleSlash(s: string, scheme: string)
    requires HasScheme(s, scheme)
    ensures HasDoubleSlash(s)
  {
    assert s[|scheme| + 1] == '/' && s[|scheme| + 2] == '/';
  }

  /** A text without a double slash is no web or file address. */
  lemma NoAddress(value: string)
    requires !HasDoubleSlash(value)
    ensures !IsHttpUrl(value) && !HasScheme(value, "file")
  {
    var trimmed := Trim(value, ScriptSpace);
    TrimIsPiece(value);
    PieceHasNoDoubleSlash(trimmed, value);
    if HasScheme(trimmed, "http") { SchemeHasDoubleSlash(trimmed, "http"); }
    if HasScheme(trimmed, "https") { SchemeHasDoubleSlash(trimmed, "https"); }
    if HasScheme(value, "file") { SchemeHasDoubleSlash(value, "file"); }
  }
}
