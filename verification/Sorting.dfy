/** Python's `sorted` with a string key: stable, by code point. */
module Sorting {

  predicate LexLeq(a: string, b: string) {
    a == "" || (b != "" && (a[0] < b[0] || (a[0] == b[0] && LexLeq(a[1..], b[1..]))))
  }

  lemma {:induction false} LexTotal(a: string, b: string)
    ensures LexLeq(a, b) || LexLeq(b, a)
    ensures LexLeq(a, b) && LexLeq(b, a) ==> a == b
  {
    if a != "" && b != "" && a[0] == b[0] {
      LexTotal(a[1..], b[1..]);
      assert a == [a[0]] + a[1..] && b == [b[0]] + b[1..];
    }
  }

  lemma {:induction false} LexTransitive(a: string, b: string, c: string)
    requires LexLeq(a, b) && LexLeq(b, c)
    ensures LexLeq(a, c)
  {
    if a != "" && a[0] == b[0] && b[0] == c[0] {
      LexTransitive(a[1..], b[1..], c[1..]);
    }
  }

  function Insert<T>(x: T, s: seq<T>, key: T -> string): seq<T> {
    if s == [] || LexLeq(key(x), key(s[0])) then [x] + s
    else [s[0]] + Insert(x, s[1..], key)
  }

  /** Insertion from the right keeps the order of elements with equal keys. */
  function Sort<T>(s: seq<T>, key: T -> string): seq<T> {
    if s == [] then [] else Insert(s[0], Sort(s[1..], key), key)
  }

  ghost predicate Sorted<T>(s: seq<T>, key: T -> string) {
    forall i, j :: 0 <= i < j < |s| ==> LexLeq(key(s[i]), key(s[j]))
  }

  lemma {:induction false} InsertPermutes<T>(x: T, s: seq<T>, key: T -> string)
    ensures multiset(Insert(x, s, key)) == multiset{x} + multiset(s)
  {
    if s != [] && !LexLeq(key(x), key(s[0])) {
      InsertPermutes(x, s[1..], key);
      assert s == [s[0]] + s[1..];
    }
  }

  lemma {:induction false} SortKeepsElements<T>(s: seq<T>, key: T -> string)
    ensures multiset(Sort(s, key)) == multiset(s)
  {
    if s == [] {
    } else {
      SortKeepsElements(s[1..], key);
      InsertPermutes(s[0], Sort(s[1..], key), key);
      assert s == [s[0]] + s[1..];
    }
  }

  lemma SameElements<T>(a: seq<T>, b: seq<T>)
    requires multiset(a) == multiset(b)
    ensures |a| == |b| && forall x :: x in a <==> x in b
  {
    assert |multiset(a)| == |multiset(b)|;
    forall x ensures x in a <==> x in b {
      assert x in a <==> x in multiset(a);
      assert x in b <==> x in multiset(b);
    }
  }

  lemma SortPermutes<T>(s: seq<T>, key: T -> string)
    ensures multiset(Sort(s, key)) == multiset(s)
    ensures |Sort(s, key)| == |s|
    ensures forall x :: x in Sort(s, key) <==> x in s
  {
    SortKeepsElements(s, key);
    SameElements(Sort(s, key), s);
  }

  lemma {:induction false} InsertSorted<T>(x: T, s: seq<T>, key: T -> string)
    requires Sorted(s, key)
    ensures Sorted(Insert(x, s, key), key)
  {
    var r := Insert(x, s, key);
    if s != [] {
      LexTotal(key(x), key(s[0]));
      if LexLeq(key(x), key(s[0])) {
        forall j | 0 <= j < |s| ensures LexLeq(key(x), key(s[j])) {
          if j > 0 { LexTransitive(key(x), key(s[0]), key(s[j])); }
        }
      } else {
        var tail := Insert(x, s[1..], key);
        InsertSorted(x, s[1..], key);
        InsertPermutes(x, s[1..], key);
        forall j | 0 <= j < |tail| ensures LexLeq(key(s[0]), key(tail[j])) {
          assert tail[j] in multiset(tail);
          if tail[j] != x { assert tail[j] in s[1..]; }
        }
      }
    }
  }

  lemma {:induction false} SortSorted<T>(s: seq<T>, key: T -> string)
    ensures Sorted(Sort(s, key), key)
  {
    if s == [] {
    } else {
      SortSorted(s[1..], key);
      InsertSorted(s[0], Sort(s[1..], key), key);
    }
  }

  ghost predicate DistinctKeys<T>(s: seq<T>, key: T -> string) {
    forall i, j :: 0 <= i < j < |s| ==> key(s[i]) != key(s[j])
  }

  lemma {:induction false} InsertDistinct<T>(x: T, s: seq<T>, key: T -> string)
    requires DistinctKeys(s, key) && forall i :: 0 <= i < |s| ==> key(s[i]) != key(x)
    ensures DistinctKeys(Insert(x, s, key), key)
  {
    if s != [] && !LexLeq(key(x), key(s[0])) {
      var tail := Insert(x, s[1..], key);
      InsertDistinct(x, s[1..], key);
      InsertPermutes(x, s[1..], key);
      forall j | 0 <= j < |tail| ensures key(tail[j]) != key(s[0]) {
        assert tail[j] in multiset(tail);
        if tail[j] != x { assert tail[j] in s[1..]; }
      }
    }
  }

  lemma {:induction false} SortDistinct<T>(s: seq<T>, key: T -> string)
    requires DistinctKeys(s, key)
    ensures DistinctKeys(Sort(s, key), key)
  {
    if s == [] {
    } else {
      var tail := Sort(s[1..], key);
      assert forall i :: 0 <= i < |s[1..]| ==> s[1..][i] == s[i + 1];
      SortDistinct(s[1..], key);
      SortPermutes(s[1..], key);
      forall i | 0 <= i < |tail| ensures key(tail[i]) != key(s[0]) {
        var x := tail[i];
        assert x in multiset(tail);
        assert x in s[1..];
        var j :| 0 <= j < |s[1..]| && s[1..][j] == x;
        assert s[j + 1] == x;
      }
      InsertDistinct(s[0], tail, key);
    }
  }
}
