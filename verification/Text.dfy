/** Text helpers shared by the models: splitting, joining and trimming strings. */
module Text {
  import opened Basics

  function Split(s: string, sep: char): (parts: seq<string>)
    ensures parts != []
    ensures FreeOf(parts, sep)
  {
    if s == [] then
      [""]
    else
      var rest := Split(s[1..], sep);
      if s[0] == sep then [""] + rest else [[s[0]] + rest[0]] + rest[1..]
  }

  function Join(parts: seq<string>, sep: char): string {
    if parts == [] then ""
    else if |parts| == 1 then parts[0]
    else parts[0] + [sep] + Join(parts[1..], sep)
  }

  ghost predicate FreeOf(parts: seq<string>, c: char) {
    forall i :: 0 <= i < |parts| ==> c !in parts[i]
  }

  /** Splitting is the left inverse of joining separator-free parts. */
  lemma {:induction false} SplitJoin(parts: seq<string>, sep: char)
    requires parts != [] && FreeOf(parts, sep)
    ensures Split(Join(parts, sep), sep) == parts
  {
    if |parts| == 1 {
      SplitWord(parts[0], sep);
    } else {
      SplitJoin(parts[1..], sep);
      SplitPrefix(parts[0], Join(parts[1..], sep), sep);
      assert parts == [parts[0]] + parts[1..];
    }
  }

  lemma {:induction false} SplitWord(w: string, sep: char)
    requires sep !in w
    ensures Split(w, sep) == [w]
  {
    if w == [] {
    } else {
      assert sep !in w[1..];
      SplitWord(w[1..], sep);
      assert [w[0]] + w[1..] == w;
    }
  }

  lemma {:induction false} SplitPrefix(w: string, rest: string, sep: char)
    requires sep !in w
    ensures Split(w + [sep] + rest, sep) == [w] + Split(rest, sep)
  {
    var s := w + [sep] + rest;
    if w == [] {
      assert s[0] == sep && s[1..] == rest;
    } else {
      var tail := w[1..];
      assert sep !in tail;
      SplitPrefix(tail, rest, sep);
      assert s[0] == w[0] && s[0] != sep && s[1..] == tail + [sep] + rest;
      var parts := Split(s[1..], sep);
      assert parts[0] == tail && parts[1..] == Split(rest, sep);
      assert [w[0]] + tail == w;
    }
  }

  /** One step of splitting: the parts of a string from its first character and the parts of the rest. */
  function Extend(c: char, rest: seq<string>, sep: char): seq<string>
    requires rest != []
  {
    if c == sep then [""] + rest else [[c] + rest[0]] + rest[1..]
  }

  lemma ExtendConcat(c: char, rest: seq<string>, tail: seq<string>, sep: char)
    requires rest != []
    ensures Extend(c, rest + tail, sep) == Extend(c, rest, sep) + tail
  {
    assert (rest + tail)[1..] == rest[1..] + tail;
    ConcatAssociates([[c] + rest[0]], rest[1..], tail);
    ConcatAssociates([""], rest, tail);
  }

  lemma {:induction false} SplitConcat(left: string, right: string, sep: char)
    ensures Split(left + [sep] + right, sep) == Split(left, sep) + Split(right, sep)
  {
    var whole := left + [sep] + right;
    if left == "" {
      assert whole[0] == sep && whole[1..] == right;
    } else {
      SplitConcat(left[1..], right, sep);
      assert whole[0] == left[0] && whole[1..] == left[1..] + [sep] + right;
      SplitExtends(whole, sep);
      SplitExtends(left, sep);
      ExtendConcat(left[0], Split(left[1..], sep), Split(right, sep), sep);
    }
  }

  lemma SplitExtends(s: string, sep: char)
    requires s != ""
    ensures Split(s, sep) == Extend(s[0], Split(s[1..], sep), sep)
  {
  }

  /** Joining the parts of a split gives the string back. */
  lemma {:induction false} JoinSplit(s: string, sep: char)
    ensures Join(Split(s, sep), sep) == s
  {
    if s == [] {
    } else {
      var tail := s[1..];
      JoinSplit(tail, sep);
      var rest := Split(tail, sep);
      var parts := Split(s, sep);
      if s[0] == sep {
        assert parts[1..] == rest;
        assert s == [sep] + tail;
      } else {
        assert parts[1..] == rest[1..];
        assert s == [s[0]] + tail;
        if |rest| > 1 {
          assert Join(parts, sep) == [s[0]] + rest[0] + [sep] + Join(rest[1..], sep);
        }
      }
    }
  }

  /** The pieces of several strings, each of them cut at every separator. */
  function Pieces(parts: seq<string>, sep: char): seq<string> {
    if parts == [] then [] else Split(parts[0], sep) + Pieces(parts[1..], sep)
  }

  /** Splitting a join gives the pieces of the parts, so it forgets where one part ended and the next began. */
  lemma {:induction false} SplitJoined(parts: seq<string>, sep: char)
    requires parts != []
    ensures Split(Join(parts, sep), sep) == Pieces(parts, sep)
  {
    var rest := parts[1..];
    if rest == [] {
      assert Pieces(parts, sep) == Split(parts[0], sep) + [];
    } else {
      SplitJoined(rest, sep);
      SplitConcat(parts[0], Join(rest, sep), sep);
    }
  }

  /** Two lists of strings have the same join if and only if they have the same pieces. */
  lemma SameJoin(a: seq<string>, b: seq<string>, sep: char)
    requires a != [] && b != []
    ensures Join(a, sep) == Join(b, sep) <==> Pieces(a, sep) == Pieces(b, sep)
  {
    SplitJoined(a, sep);
    SplitJoined(b, sep);
    JoinSplit(Join(a, sep), sep);
    JoinSplit(Join(b, sep), sep);
  }

  lemma PiecesOfFree(parts: seq<string>, sep: char)
    requires parts != [] && FreeOf(parts, sep)
    ensures Pieces(parts, sep) == parts
  {
    SplitJoin(parts, sep);
    SplitJoined(parts, sep);
  }

  /** Characters of a join come from the parts or are the separator. */
  lemma {:induction false} JoinFreeOf(parts: seq<string>, sep: char, c: char)
    requires FreeOf(parts, c) && c != sep
    ensures c !in Join(parts, sep)
  {
    if |parts| > 1 {
      JoinFreeOf(parts[1..], sep, c);
    }
  }

  lemma {:induction false} SplitFreeOf(s: string, sep: char, c: char)
    requires c !in s
    ensures FreeOf(Split(s, sep), c)
  {
    if s == [] {
    } else {
      assert c !in s[1..];
      SplitFreeOf(s[1..], sep, c);
    }
  }

  lemma {:induction false} JoinFilterShorter(parts: seq<string>, sep: char, keep: string -> bool)
    ensures |Join(Filter(parts, keep), sep)| <= |Join(parts, sep)|
  {
    if |parts| == 1 {
      assert Filter(parts[1..], keep) == [];
    } else if |parts| > 1 {
      JoinFilterShorter(parts[1..], sep, keep);
      var rest := Filter(parts[1..], keep);
      if keep(parts[0]) && rest != [] {
        assert ([parts[0]] + rest)[1..] == rest;
        assert Join([parts[0]] + rest, sep) == parts[0] + [sep] + Join(rest, sep);
      } else if !keep(parts[0]) {
        assert Filter(parts, keep) == rest;
      }
    }
  }

  /** The first position from `i` on that holds no white space. */
  function LeftEdge(s: string, i: nat, space: char -> bool): (j: nat)
    requires i <= |s|
    ensures i <= j <= |s|
    ensures j < |s| ==> !space(s[j])
    ensures i < |s| && space(s[i]) ==> j > i
    decreases |s| - i
  {
    if i < |s| && space(s[i]) then LeftEdge(s, i + 1, space) else i
  }

  /** The last position from `j` down to `i` that no white space precedes. */
  function RightEdge(s: string, i: nat, j: nat, space: char -> bool): (k: nat)
    requires i <= j <= |s|
    ensures i <= k <= j
    ensures k > i ==> !space(s[k - 1])
    ensures i < j && space(s[j - 1]) ==> k < j
    ensures i < j && !space(s[i]) ==> k > i
    decreases j
  {
    if i < j && space(s[j - 1]) then RightEdge(s, i, j - 1, space) else j
  }

  /** `str.strip` of Python and `String.trim` of JavaScript, for a given notion of white space. */
  function Trim(s: string, space: char -> bool): (r: string)
    ensures |r| <= |s|
    ensures r == s <==> s == "" || (!space(s[0]) && !space(s[|s| - 1]))
    ensures r != s ==> |r| < |s|
    ensures r != "" ==> !space(r[0]) && !space(r[|r| - 1])
    ensures '\\' !in s ==> '\\' !in r
  {
    var left := LeftEdge(s, 0, space);
    s[left..RightEdge(s, left, |s|, space)]
  }

  lemma {:induction false} LeftEdgeBefore(line: string, end: char, i: nat, space: char -> bool)
    requires i <= |line| && space(end)
    ensures var left := LeftEdge(line, i, space);
            LeftEdge(line + [end], i, space) == if left == |line| then |line| + 1 else left
    decreases |line| - i
  {
    var text := line + [end];
    if i == |line| {
      assert text[i] == end && LeftEdge(text, i + 1, space) == i + 1;
    } else {
      assert text[i] == line[i];
      LeftEdgeBefore(line, end, i + 1, space);
    }
  }

  lemma {:induction false} RightEdgeBefore(line: string, end: char, i: nat, j: nat, space: char -> bool)
    requires i <= j <= |line|
    ensures RightEdge(line + [end], i, j, space) == RightEdge(line, i, j, space)
  {
    if i == j {
    } else {
      assert (line + [end])[j - 1] == line[j - 1];
      RightEdgeBefore(line, end, i, j - 1, space);
    }
  }

  /** White space at the end does not matter for trimming. */
  lemma TrimIgnoresTheEnd(line: string, end: char, space: char -> bool)
    requires space(end)
    ensures Trim(line + [end], space) == Trim(line, space)
  {
    var text, left := line + [end], LeftEdge(line, 0, space);
    LeftEdgeBefore(line, end, 0, space);
    if left < |line| {
      assert text[|line|] == end;
      RightEdgeBefore(line, end, left, |line|, space);
      var right := RightEdge(line, left, |line|, space);
      assert text[left..right] == line[left..right];
    }
  }

  predicate PythonSpace(c: char) {
    var k := c as int;
    || 9 <= k <= 13 || 28 <= k <= 32 || k == 0x85 || k == 0xa0 || k == 0x1680
    || 0x2000 <= k <= 0x200a || 0x2028 <= k <= 0x2029 || k == 0x202f || k == 0x205f || k == 0x3000
  }

  /** White space of `String.trim` and `\\s` in JavaScript. */
  predicate ScriptSpace(c: char) {
    var k := c as int;
    || 9 <= k <= 13 || k == 32 || k == 0xa0 || k == 0x1680 || 0x2000 <= k <= 0x200a || 0x2028 <= k <= 0x2029
    || k == 0x202f || k == 0x205f || k == 0x3000 || k == 0xfeff
  }

  predicate IsLetter(c: char) {
    'a' <= c <= 'z' || 'A' <= c <= 'Z'
  }

  function LowerOf(c: char): char {
    if 'A' <= c <= 'Z' then (c as int + 32) as char else c
  }

  function UpperOf(c: char): char {
    if 'a' <= c <= 'z' then (c as int - 32) as char else c
  }

  /** Lower case of the ASCII letters, which is all that comparing with an ASCII word needs. */
  function Lower(s: string): (r: string)
    ensures |r| == |s| && forall i :: 0 <= i < |s| ==> r[i] == LowerOf(s[i])
  {
    seq(|s|, i requires 0 <= i < |s| => LowerOf(s[i]))
  }

  function Slashes(s: string): (r: string)
    ensures |r| == |s|
    ensures '\\' !in r
    ensures '\\' !in s ==> r == s
  {
    seq(|s|, i requires 0 <= i < |s| => if s[i] == '\\' then '/' else s[i])
  }

  predicate Contains(s: string, needle: string) {
    needle <= s || (s != "" && Contains(s[1..], needle))
  }

  lemma {:induction false} ContainsMiddle(before: string, needle: string, after: string)
    ensures Contains(before + needle + after, needle)
  {
    if before == "" {
      assert before + needle + after == needle + after;
    } else {
      ContainsMiddle(before[1..], needle, after);
      assert (before + needle + after)[1..] == before[1..] + needle + after;
    }
  }

  lemma {:induction false} ContainsInside(before: string, middle: string, after: string, needle: string)
    requires Contains(middle, needle)
    ensures Contains(before + middle + after, needle)
    decreases |before| + |middle|
  {
    if before != "" {
      ContainsInside(before[1..], middle, after, needle);
      assert (before + middle + after)[1..] == before[1..] + middle + after;
    } else if needle <= middle {
      assert before + middle + after == needle + (middle[|needle|..] + after);
    } else {
      ContainsInside("", middle[1..], after, needle);
      assert (before + middle + after)[1..] == "" + middle[1..] + after;
    }
  }
}
