/** `sorted(..., key=...)`: a stable sort by an integer key. */
module Ordering {
  function InsertBy<T>(sorted: seq<T>, x: T, key: T -> int): (s: seq<T>) {
    if sorted == [] then [x]
    else if key(x) < key(sorted[|sorted| - 1])
    then InsertBy(sorted[..|sorted| - 1], x, key) + [sorted[|sorted| - 1]]
    else sorted + [x]
  }

  function SortBy<T>(s: seq<T>, key: T -> int): (result: seq<T>) {
    if s == [] then [] else InsertBy(SortBy(s[..|s| - 1], key), s[|s| - 1], key)
  }

  /** Strictly increasing keys. */
  ghost predicate Ascends<T>(s: seq<T>, key: T -> int) {
    forall i, j :: 0 <= i < j < |s| ==> key(s[i]) < key(s[j])
  }

  ghost predicate DistinctKeys<T>(s: seq<T>, key: T -> int) {
    forall i, j :: 0 <= i < j < |s| ==> key(s[i]) != key(s[j])
  }

  lemma {:induction false} InsertKeeps<T(!new)>(sorted: seq<T>, x: T, key: T -> int)
    ensures |InsertBy(sorted, x, key)| == |sorted| + 1
    ensures forall y :: y in InsertBy(sorted, x, key) <==> y == x || y in sorted
  {
    if sorted != [] && key(x) < key(sorted[|sorted| - 1]) {
      var n := |sorted| - 1;
      InsertKeeps(sorted[..n], x, key);
      assert sorted == sorted[..n] + [sorted[n]];
    }
  }

  lemma {:induction false} SortKeeps<T(!new)>(s: seq<T>, key: T -> int)
    ensures |SortBy(s, key)| == |s|
    ensures forall y :: y in SortBy(s, key) <==> y in s
  {
    if s != [] {
      var n := |s| - 1;
      SortKeeps(s[..n], key);
      InsertKeeps(SortBy(s[..n], key), s[n], key);
      assert s == s[..n] + [s[n]];
    }
  }

  lemma {:induction false} InsertAscends<T(!new)>(sorted: seq<T>, x: T, key: T -> int)
    requires Ascends(sorted, key) && forall i :: 0 <= i < |sorted| ==> key(sorted[i]) != key(x)
    ensures Ascends(InsertBy(sorted, x, key), key)
  {
    if sorted != [] && key(x) < key(sorted[|sorted| - 1]) {
      var n := |sorted| - 1;
      InsertAscends(sorted[..n], x, key);
      InsertKeeps(sorted[..n], x, key);
      var t := InsertBy(sorted[..n], x, key);
      forall i | 0 <= i < |t|
        ensures key(t[i]) < key(sorted[n])
      {
        var y := t[i];
        assert y in t;
        assert y == x || y in sorted[..n];
      }
    }
  }

  lemma {:induction false} SortAscends<T(!new)>(s: seq<T>, key: T -> int)
    requires DistinctKeys(s, key)
    ensures Ascends(SortBy(s, key), key)
  {
    if s != [] {
      var n := |s| - 1;
      SortAscends(s[..n], key);
      SortKeeps(s[..n], key);
      var t := SortBy(s[..n], key);
      forall i | 0 <= i < |t|
        ensures key(t[i]) != key(s[n])
      {
        var y := t[i];
        assert y in t;
        assert y in s[..n];
      }
      InsertAscends(t, s[n], key);
    }
  }

  /** Sorting leaves an increasing list alone. */
  lemma {:induction false} AscendingStays<T>(s: seq<T>, key: T -> int)
    requires Ascends(s, key)
    ensures SortBy(s, key) == s
  {
    if s != [] {
      AscendingStays(s[..|s| - 1], key);
      assert s == s[..|s| - 1] + [s[|s| - 1]];
    }
  }
}
