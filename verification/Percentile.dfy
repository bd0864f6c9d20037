/**
 * The inclusive percentile of kneepoint/analyze/knee.py and the order statistics under it.
 *
 * Samples are exact reals, so the blend of two neighbours is not rounded.
 */
module Percentile {
  import opened Basics

  predicate Sorted(s: seq<real>) {
    forall i, j :: 0 <= i <= j < |s| ==> s[i] <= s[j]
  }

  function Insert(s: seq<real>, x: real): (result: seq<real>) {
    if s == [] || x <= s[0] then [x] + s else [s[0]] + Insert(s[1..], x)
  }

  /** `sorted(values)`. */
  function Sort(values: seq<real>): (s: seq<real>) {
    if values == [] then [] else Insert(Sort(values[..|values| - 1]), values[|values| - 1])
  }

  lemma {:induction false} InsertSorts(s: seq<real>, x: real)
    requires Sorted(s)
    ensures Sorted(Insert(s, x)) && |Insert(s, x)| == |s| + 1
    ensures multiset(Insert(s, x)) == multiset(s) + multiset{x}
  {
    if s != [] && x > s[0] {
      var t := Insert(s[1..], x);
      InsertSorts(s[1..], x);
      assert s == [s[0]] + s[1..];
      forall j | 0 <= j < |t|
        ensures s[0] <= t[j]
      {
        assert t[j] in multiset(t);
        assert t[j] == x || t[j] in s[1..];
      }
    }
  }

  lemma {:induction false} SortSorts(values: seq<real>)
    ensures Sorted(Sort(values)) && |Sort(values)| == |values|
    ensures multiset(Sort(values)) == multiset(values)
  {
    if values != [] {
      var n := |values| - 1;
      SortSorts(values[..n]);
      InsertSorts(Sort(values[..n]), values[n]);
      assert values == values[..n] + [values[n]];
    }
  }

  lemma RestOf(s: seq<real>)
    requires s != []
    ensures multiset(s[1..]) == multiset(s) - multiset{s[0]}
  {
    assert s == [s[0]] + s[1..];
  }

  lemma FirstIsLeast(s: seq<real>, x: real)
    requires Sorted(s) && x in multiset(s)
    ensures s != [] && s[0] <= x
  {
    assert x in s;
  }

  lemma FirstsAgree(s: seq<real>, t: seq<real>)
    requires Sorted(s) && Sorted(t) && multiset(s) == multiset(t) && s != []
    ensures t != [] && s[0] == t[0]
  {
    assert s[0] in multiset(s);
    FirstIsLeast(t, s[0]);
    assert t[0] in multiset(t);
    FirstIsLeast(s, t[0]);
  }

  lemma RestsAgree(s: seq<real>, t: seq<real>)
    requires multiset(s) == multiset(t) && s != [] && t != [] && s[0] == t[0]
    ensures multiset(s[1..]) == multiset(t[1..])
  {
    RestOf(s);
    RestOf(t);
  }

  lemma EmptyAgrees(t: seq<real>)
    requires multiset(t) == multiset{}
    ensures t == []
  {
    assert |t| == |multiset(t)| == 0;
  }

  lemma {:induction false} SortedUnique(s: seq<real>, t: seq<real>)
    requires Sorted(s) && Sorted(t) && multiset(s) == multiset(t)
    ensures s == t
    decreases |s|
  {
    if s == [] {
      EmptyAgrees(t);
    } else {
      FirstsAgree(s, t);
      RestsAgree(s, t);
      SortedUnique(s[1..], t[1..]);
      assert s == [s[0]] + s[1..] && t == [t[0]] + t[1..];
    }
  }

  /** Hundredths `delta` of the way from `x` to `y`. */
  function Blend(x: real, y: real, delta: nat): (result: real)
    requires delta <= 100
  {
    (x * (100 - delta) as real + y * delta as real) / 100.0
  }

  /** `divmod(p * m, 100)`: the pair of order statistics and the place between them. */
  function Place(m: nat, p: nat): (place: (nat, nat))
    requires m >= 1 && 1 <= p <= 99
    ensures place.0 + 1 <= m && place.1 < 100
    ensures 100 * place.0 + place.1 == p * m
  {
    assert p * m <= 99 * m;
    (p * m / 100, p * m % 100)
  }

  /** Cut point `p` of 100 over sorted data: linear between the two neighbouring order statistics. */
  function Cut(sorted: seq<real>, p: nat): (x: real)
    requires |sorted| >= 2 && 1 <= p <= 99
  {
    var place := Place(|sorted| - 1, p);
    Blend(sorted[place.0], sorted[place.0 + 1], place.1)
  }

  /** `_pct`: a single sample is its own percentile. */
  function Pct(values: seq<real>, p: nat): (x: real)
    requires values != [] && 1 <= p <= 99
  {
    SortSorts(values);
    if |values| == 1 then values[0] else Cut(Sort(values), p)
  }

  function PctOpt(values: seq<real>, p: nat): (r: Option<real>)
    requires 1 <= p <= 99
  {
    if values == [] then None else Some(Pct(values, p))
  }

  /** `delta` hundredths of the way from the sample at `j` to the next one. */
  ghost predicate IsCut(x: real, ascending: seq<real>, j: int, delta: int) {
    && 0 <= j < |ascending| - 1
    && 100.0 * x == ascending[j] * (100 - delta) as real + ascending[j + 1] * delta as real
  }

  /**
   * The percentile, read off the samples in ascending order, whatever sorted them: with `m` gaps between them it
   * lies p·m hundredths of a gap along, on the straight line between the two samples there.
   */
  lemma PctIs(values: seq<real>, p: nat, ascending: seq<real>)
    requires values != [] && 1 <= p <= 99
    requires multiset(ascending) == multiset(values)
    requires forall i, j :: 0 <= i <= j < |ascending| ==> ascending[i] <= ascending[j]
    ensures |ascending| == |values|
    ensures |values| == 1 ==> Pct(values, p) == ascending[0]
    ensures |values| >= 2 ==>
              var m := |ascending| - 1; IsCut(Pct(values, p), ascending, p * m / 100, p * m % 100)
  {
    SortSorts(values);
    SortedUnique(Sort(values), ascending);
    assert |multiset(values)| == |values| && |multiset(ascending)| == |ascending|;
    if |values| == 1 {
      assert ascending[0] in multiset(values);
    } else {
      var m := |ascending| - 1;
      PlaceIs(m, p);
      CutIs(ascending, p, p * m / 100, p * m % 100);
    }
  }

  lemma PlaceIs(m: nat, p: nat)
    requires m >= 1 && 1 <= p <= 99
    ensures Place(m, p) == (p * m / 100, p * m % 100)
  {
  }

  lemma CutIs(sorted: seq<real>, p: nat, j: nat, delta: nat)
    requires |sorted| >= 2 && 1 <= p <= 99 && Place(|sorted| - 1, p) == (j, delta)
    ensures IsCut(Cut(sorted, p), sorted, j, delta)
  {
  }

  lemma ScaleMonotone(x: real, y: real, c: real)
    requires x <= y && 0.0 <= c
    ensures x * c <= y * c
  {
    assert 0.0 <= (y - x) * c;
  }

  lemma Distribute(x: real, a: real, b: real)
    ensures x * a + x * b == x * (a + b)
  {
  }

  /** A blend of two ordered numbers lies between them. */
  lemma BlendBetween(x: real, y: real, delta: nat)
    requires x <= y && delta <= 100
    ensures x <= Blend(x, y, delta) <= y
  {
    var a, d := (100 - delta) as real, delta as real;
    ScaleMonotone(x, y, d);
    ScaleMonotone(x, y, a);
    Distribute(x, a, d);
    Distribute(y, a, d);
    Hundredths(x, y, x * a, x * d, y * a, y * d);
  }

  lemma Hundredths(x: real, y: real, xa: real, xd: real, ya: real, yd: real)
    requires xa + xd == x * 100.0 && ya + yd == y * 100.0 && xa <= ya && xd <= yd
    ensures x <= (xa + yd) / 100.0 <= y
  {
  }

  /** It moves up with its weight ... */
  lemma BlendMonotoneInWeight(x: real, y: real, d: nat, e: nat)
    requires x <= y && d <= e <= 100
    ensures Blend(x, y, d) <= Blend(x, y, e)
  {
    var a, b := d as real, e as real;
    assert (100 - d) as real == 100.0 - a && (100 - e) as real == 100.0 - b;
    ScaleMonotone(x, y, b - a);
    assert x * (100.0 - a) == x * (100.0 - b) + x * (b - a);
    assert y * b == y * a + y * (b - a);
  }

  /** ... and with its end points. */
  lemma BlendMonotoneInEnds(x: real, y: real, x': real, y': real, delta: nat)
    requires x <= x' && y <= y' && delta <= 100
    ensures Blend(x, y, delta) <= Blend(x', y', delta)
  {
    WeightedMonotone(x, y, x', y', (100 - delta) as real, delta as real);
  }

  lemma WeightedMonotone(x: real, y: real, x': real, y': real, a: real, d: real)
    requires x <= x' && y <= y' && 0.0 <= a && 0.0 <= d
    ensures x * a + y * d <= x' * a + y' * d
  {
    ScaleMonotone(x, x', a);
    ScaleMonotone(y, y', d);
  }

  /** The percentile lies between the smallest and the largest sample. */
  lemma PctWithinRange(values: seq<real>, p: nat, low: real, high: real)
    requires values != [] && 1 <= p <= 99
    requires forall i :: 0 <= i < |values| ==> low <= values[i] <= high
    ensures low <= Pct(values, p) <= high
  {
    if |values| > 1 {
      SortSorts(values);
      var s := Sort(values);
      forall i | 0 <= i < |s|
        ensures low <= s[i] <= high
      {
        assert s[i] in multiset(s) && s[i] in values;
      }
      var place := Place(|s| - 1, p);
      BlendBetween(s[place.0], s[place.0 + 1], place.1);
    }
  }

  /** The order of the samples does not matter. */
  lemma PctOrderFree(values: seq<real>, others: seq<real>, p: nat)
    requires values != [] && 1 <= p <= 99 && multiset(values) == multiset(others)
    ensures others != [] && Pct(values, p) == Pct(others, p)
  {
    assert |values| == |multiset(values)| == |others|;
    SortSorts(values);
    SortSorts(others);
    SortedUnique(Sort(values), Sort(others));
    if |values| == 1 {
      assert values[0] in multiset(values);
    }
  }

  /** Pointwise no greater. */
  ghost predicate Below(s: seq<real>, t: seq<real>) {
    |s| == |t| && forall i :: 0 <= i < |s| ==> s[i] <= t[i]
  }

  lemma ConsBelow(x: real, s: seq<real>, y: real, t: seq<real>)
    requires x <= y && Below(s, t)
    ensures Below([x] + s, [y] + t)
  {
  }

  /** The front of a sorted list goes back in front. */
  lemma InsertFront(s: seq<real>)
    requires Sorted(s) && s != []
    ensures Insert(s[1..], s[0]) == s
  {
    assert s == [s[0]] + s[1..];
  }

  lemma {:induction false} InsertMonotone(s: seq<real>, t: seq<real>, x: real, y: real)
    requires Sorted(s) && Sorted(t) && Below(s, t) && x <= y
    ensures Below(Insert(s, x), Insert(t, y))
    decreases |s|
  {
    if s == [] {
      ConsBelow(x, s, y, t);
    } else if x <= s[0] && y <= t[0] {
      ConsBelow(x, s, y, t);
    } else if x <= s[0] {
      // x goes in front of s; t[0] stays in front of t
      InsertMonotone(s[1..], t[1..], s[0], y);
      InsertFront(s);
      ConsBelow(x, s, t[0], Insert(t[1..], y));
    } else if y <= t[0] {
      // s[0] stays in front of s; y goes in front of t
      InsertMonotone(s[1..], t[1..], x, t[0]);
      InsertFront(t);
      ConsBelow(s[0], Insert(s[1..], x), y, t);
    } else {
      InsertMonotone(s[1..], t[1..], x, y);
      ConsBelow(s[0], Insert(s[1..], x), t[0], Insert(t[1..], y));
    }
  }

  lemma {:induction false} SortMonotone(values: seq<real>, others: seq<real>)
    requires |values| == |others| && forall i :: 0 <= i < |values| ==> values[i] <= others[i]
    ensures |Sort(values)| == |Sort(others)| == |values|
    ensures forall i :: 0 <= i < |values| ==> Sort(values)[i] <= Sort(others)[i]
  {
    SortSorts(values);
    SortSorts(others);
    if values != [] {
      var n := |values| - 1;
      SortMonotone(values[..n], others[..n]);
      SortSorts(values[..n]);
      SortSorts(others[..n]);
      InsertMonotone(Sort(values[..n]), Sort(others[..n]), values[n], others[n]);
    }
  }

  /** Raising samples never lowers the percentile. */
  lemma PctMonotoneInSamples(values: seq<real>, others: seq<real>, p: nat)
    requires values != [] && |values| == |others| && 1 <= p <= 99
    requires forall i :: 0 <= i < |values| ==> values[i] <= others[i]
    ensures Pct(values, p) <= Pct(others, p)
  {
    if |values| > 1 {
      SortMonotone(values, others);
      var s, t := Sort(values), Sort(others);
      var place := Place(|s| - 1, p);
      BlendMonotoneInEnds(s[place.0], s[place.0 + 1], t[place.0], t[place.0 + 1], place.1);
    }
  }

  lemma CutMonotone(s: seq<real>, p: nat, q: nat)
    requires Sorted(s) && |s| >= 2 && 1 <= p <= q <= 99
    ensures Cut(s, p) <= Cut(s, q)
  {
    var at, to := Place(|s| - 1, p), Place(|s| - 1, q);
    PlaceMonotone(|s| - 1, p, q);
    if at.0 == to.0 {
      BlendMonotoneInWeight(s[at.0], s[at.0 + 1], at.1, to.1);
    } else {
      BlendBetween(s[at.0], s[at.0 + 1], at.1);
      BlendBetween(s[to.0], s[to.0 + 1], to.1);
      assert s[at.0 + 1] <= s[to.0];
    }
  }

  lemma PlaceMonotone(m: nat, p: nat, q: nat)
    requires m >= 1 && 1 <= p <= q <= 99
    ensures Place(m, p).0 < Place(m, q).0 || (Place(m, p).0 == Place(m, q).0 && Place(m, p).1 <= Place(m, q).1)
  {
    assert 0 <= (q - p) * m;
    assert p * m <= q * m;
  }

  /** A higher percentile of the same samples is never lower; in particular p50 <= p95 <= p99. */
  lemma PctMonotoneInP(values: seq<real>, p: nat, q: nat)
    requires values != [] && 1 <= p <= q <= 99
    ensures Pct(values, p) <= Pct(values, q)
  {
    if |values| > 1 {
      SortSorts(values);
      CutMonotone(Sort(values), p, q);
    }
  }
}
