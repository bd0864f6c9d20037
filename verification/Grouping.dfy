/** Grouping records by ramp level: the sorted level list every per-level report iterates over. */
module Grouping {
  import opened Basics
  import opened Records

  predicate Ascending(s: seq<int>) {
    forall i, j :: 0 <= i < j < |s| ==> s[i] < s[j]
  }

  function InsertLevel(s: seq<int>, c: int): (result: seq<int>) {
    if s == [] then [c]
    else if c < s[0] then [c] + s
    else if c == s[0] then s
    else [s[0]] + InsertLevel(s[1..], c)
  }

  lemma {:induction false} InsertLevelSorts(s: seq<int>, c: int)
    requires Ascending(s)
    ensures Ascending(InsertLevel(s, c))
    ensures forall x :: x in InsertLevel(s, c) <==> x == c || x in s
  {
    if s != [] && c > s[0] {
      InsertLevelSorts(s[1..], c);
      var t := InsertLevel(s[1..], c);
      assert s == [s[0]] + s[1..];
      forall j | 0 <= j < |t|
        ensures s[0] < t[j]
      {
        assert t[j] in t;
      }
    }
  }

  /** The levels that have records, each once, in increasing order. */
  function Levels(records: seq<RequestRecord>): (s: seq<int>) {
    if records == [] then [] else InsertLevel(Levels(records[..|records| - 1]), records[|records| - 1].concurrency)
  }

  lemma {:induction false} LevelsAreSorted(records: seq<RequestRecord>)
    ensures Ascending(Levels(records))
    ensures forall i :: 0 <= i < |records| ==> records[i].concurrency in Levels(records)
    ensures forall c :: c in Levels(records) ==> exists i :: 0 <= i < |records| && records[i].concurrency == c
  {
    if records != [] {
      var rs, r := records[..|records| - 1], records[|records| - 1];
      LevelsAreSorted(rs);
      InsertLevelSorts(Levels(rs), r.concurrency);
      forall c | c in Levels(records)
        ensures exists i :: 0 <= i < |records| && records[i].concurrency == c
      {
        if c != r.concurrency {
          var i :| 0 <= i < |rs| && rs[i].concurrency == c;
          assert records[i].concurrency == c;
        } else {
          assert records[|records| - 1].concurrency == c;
        }
      }
    }
  }

  /** A level is listed exactly when its group is not empty. */
  lemma LevelHasGroup(records: seq<RequestRecord>, c: int)
    ensures c in Levels(records) <==> Filter(records, OfLevel(c)) != []
  {
    LevelsAreSorted(records);
    FilterMembers(records, OfLevel(c));
    if c in Levels(records) {
      var i :| 0 <= i < |records| && records[i].concurrency == c;
      assert OfLevel(c)(records[i]) && records[i] in records;
    }
    if |Filter(records, OfLevel(c))| > 0 {
      var r := Filter(records, OfLevel(c))[0];
      assert r in records && r.concurrency == c;
    }
  }

  /** Two increasing lists with the same elements are the same list. */
  lemma {:induction false} AscendingUnique(s: seq<int>, t: seq<int>)
    requires Ascending(s) && Ascending(t)
    requires forall x :: x in s <==> x in t
    ensures s == t
  {
    if s == [] {
      assert forall i :: 0 <= i < |t| ==> t[i] in s;
    } else {
      assert s[0] in s && s[0] in t;
      assert t[0] in t && t[0] in s;
      assert s[0] == t[0];
      forall x
        ensures x in s[1..] <==> x in t[1..]
      {
        assert x in s <==> x == s[0] || x in s[1..];
        assert x in t <==> x == t[0] || x in t[1..];
      }
      AscendingUnique(s[1..], t[1..]);
    }
  }

  /** Some key of a nonempty key set. */
  ghost function AnyOf<T>(keys: set<T>): (c: T)
    requires keys != {}
    ensures c in keys
  {
    var c :| c in keys; c
  }

  method Pick<T>(keys: set<T>) returns (c: T)
    requires keys != {}
    ensures c in keys
  {
    c :| c in keys;
  }

  /** `sorted` over a dictionary's keys. */
  method SortedKeys(keys: set<int>) returns (s: seq<int>)
    ensures Ascending(s)
    ensures forall x :: x in s <==> x in keys
  {
    s := [];
    var left := keys;
    while left != {}
      invariant Ascending(s)
      invariant forall x :: x in s <==> x in keys && x !in left
      invariant left <= keys
      decreases left
    {
      var c := Pick(left);
      InsertLevelSorts(s, c);
      s := InsertLevel(s, c);
      left := left - {c};
    }
  }

  /** One dictionary pass: each level's records in file order. */
  method GroupByLevel(records: seq<RequestRecord>) returns (groups: map<int, seq<RequestRecord>>)
    ensures forall c :: c in groups <==> c in Levels(records)
    ensures forall c :: c in groups ==> groups[c] == Filter(records, OfLevel(c))
  {
    groups := map[];
    for i := 0 to |records|
      invariant forall c :: c in groups <==> Filter(records[..i], OfLevel(c)) != []
      invariant forall c :: c in groups ==> groups[c] == Filter(records[..i], OfLevel(c))
    {
      var r := records[i];
      assert records[..i + 1] == records[..i] + [r];
      forall c: int
        ensures Filter(records[..i + 1], OfLevel(c))
             == if r.concurrency == c then Filter(records[..i], OfLevel(c)) + [r] else Filter(records[..i], OfLevel(c))
      {
        FilterSnoc(records[..i], r, OfLevel(c));
      }
      groups := groups[r.concurrency := (if r.concurrency in groups then groups[r.concurrency] else []) + [r]];
    }
    assert records[..|records|] == records;
    forall c: int
      ensures c in groups <==> c in Levels(records)
    {
      LevelHasGroup(records, c);
    }
  }

  /** `sum(1 for r in recs if ...)`. */
  method CountWhere(recs: seq<RequestRecord>, p: RequestRecord -> bool) returns (n: nat)
    ensures n == Count(recs, p)
  {
    n := 0;
    for i := 0 to |recs|
      invariant n == Count(recs[..i], p)
    {
      assert recs[..i + 1] == recs[..i] + [recs[i]];
      CountSnoc(recs[..i], recs[i], p);
      if p(recs[i]) {
        n := n + 1;
      }
    }
    assert recs[..|recs|] == recs;
  }
}
