/** kneepoint/analyze/scaling.py: the published capacity verdict, read off the per-level statistics alone. */
module ScalingReading {
  import opened Basics
  import opened Ordering
  import opened Percentile
  import opened Scaling

  // ----- the median

  function Under(x: real): (p: real -> bool) {
    (y: real) => y < x
  }

  function Over(x: real): (p: real -> bool) {
    (y: real) => y > x
  }

  /** Half the values lie on either side; the middle one, or half way between the middle two. */
  ghost predicate IsMedian(x: real, values: seq<real>) {
    && Count(values, Under(x)) <= |values| / 2 && Count(values, Over(x)) <= |values| / 2
    && (|values| % 2 == 1 ==> x in values)
    && (|values| % 2 == 0 ==>
          exists a, b :: multiset{a, b} <= multiset(values) && x == (a + b) / 2.0
                         && forall v :: v in values ==> !(a < v < b))
  }

  lemma TakenOut(a: seq<real>, x: real, b: seq<real>, p: real -> bool)
    ensures multiset(a + [x] + b) == multiset(a + b) + multiset{x}
    ensures Count(a + [x] + b, p) == Count(a + b, p) + if p(x) then 1 else 0
  {
    CountConcat(a + [x], b, p);
    CountSnoc(a, x, p);
    CountConcat(a, b, p);
  }

  /** A count does not depend on the order. */
  lemma {:induction false} CountOrderFree(s: seq<real>, t: seq<real>, p: real -> bool)
    requires multiset(s) == multiset(t)
    ensures Count(s, p) == Count(t, p)
    decreases |s|
  {
    assert |s| == |multiset(s)| == |multiset(t)| == |t|;
    if s != [] {
      var n := |s| - 1;
      var x := s[n];
      assert s == s[..n] + [x];
      assert x in multiset(t);
      var i :| 0 <= i < |t| && t[i] == x;
      var a, b := t[..i], t[i + 1..];
      assert t == a + [x] + b;
      TakenOut(a, x, b, p);
      assert multiset(s[..n]) == multiset(s) - multiset{x};
      CountOrderFree(s[..n], a + b, p);
    }
  }

  lemma {:induction false} CountWithin(s: seq<real>, p: real -> bool, low: nat, high: nat)
    requires low <= high <= |s| && forall i :: 0 <= i < |s| && p(s[i]) ==> low <= i < high
    ensures Count(s, p) <= high - low
    decreases |s|
  {
    if s != [] {
      var n := |s| - 1;
      if high == |s| {
        if low < high {
          CountWithin(s[..n], p, low, high - 1);
        } else {
          CountWithin(s[..n], p, n, n);
        }
      } else {
        CountWithin(s[..n], p, low, high);
      }
    }
  }

  lemma PairAmong(s: seq<real>, i: nat)
    requires i + 1 < |s|
    ensures multiset{s[i], s[i + 1]} <= multiset(s)
  {
    assert s == s[..i] + [s[i], s[i + 1]] + s[i + 2..];
  }

  lemma OddMiddle(s: seq<real>)
    requires Sorted(s) && |s| % 2 == 1
    ensures IsMedian(s[|s| / 2], s)
  {
    CountWithin(s, Under(s[|s| / 2]), 0, |s| / 2);
    CountWithin(s, Over(s[|s| / 2]), |s| / 2 + 1, |s|);
  }

  lemma NoneBetween(s: seq<real>, i: nat)
    requires Sorted(s) && i + 1 < |s|
    ensures forall v :: v in s ==> !(s[i] < v < s[i + 1])
  {
  }

  lemma EvenMiddle(s: seq<real>, x: real)
    requires Sorted(s) && |s| % 2 == 0 && s != [] && x == (s[|s| / 2 - 1] + s[|s| / 2]) / 2.0
    ensures IsMedian(x, s)
  {
    var k := |s| / 2;
    CountWithin(s, Under(x), 0, k);
    CountWithin(s, Over(x), k, |s|);
    PairAmong(s, k - 1);
    NoneBetween(s, k - 1);
    var a, b := s[k - 1], s[k];
    assert multiset{a, b} <= multiset(s);
  }

  lemma SameMedian(x: real, s: seq<real>, values: seq<real>)
    requires IsMedian(x, s) && multiset(s) == multiset(values)
    ensures IsMedian(x, values)
  {
    assert |s| == |multiset(s)| == |multiset(values)| == |values|;
    CountOrderFree(s, values, Under(x));
    CountOrderFree(s, values, Over(x));
    assert forall v :: v in s <==> v in multiset(s);
    assert forall v :: v in values <==> v in multiset(values);
    if |s| % 2 == 0 {
      var a, b :| multiset{a, b} <= multiset(s) && x == (a + b) / 2.0 && forall v :: v in s ==> !(a < v < b);
      assert multiset{a, b} <= multiset(values);
    }
  }

  lemma MedianIsMedian(values: seq<real>)
    requires values != []
    ensures IsMedian(Median(values), values)
  {
    SortSorts(values);
    if |values| % 2 == 1 {
      OddMiddle(Sort(values));
    } else {
      EvenMiddle(Sort(values), Median(values));
    }
    SameMedian(Median(values), Sort(values), values);
  }

  // ----- the usable rates

  /** An uncontaminated level with a positive rate and enough successes, one at least. */
  predicate IsUsable(l: Level, minSamples: int) {
    && !l.contaminated && l.successes >= 1 && l.successes >= minSamples
    && match l.rate { case Some(rate) => rate > 0.0 case None => false }
  }

  ghost predicate Distinct(stats: seq<Level>) {
    forall i, j :: 0 <= i < j < |stats| ==> stats[i].concurrency != stats[j].concurrency
  }

  /** The statistics by level, strictly ascending. */
  ghost predicate IsAscending(ordered: seq<Level>, stats: seq<Level>) {
    && (forall l :: l in ordered <==> l in stats)
    && forall i, j :: 0 <= i < j < |ordered| ==> ordered[i].concurrency < ordered[j].concurrency
  }

  /** The rates by level: those of the usable levels. */
  ghost predicate HoldsRates(usable: map<int, real>, ordered: seq<Level>, minSamples: int) {
    forall i :: 0 <= i < |ordered| ==>
      if IsUsable(ordered[i], minSamples)
      then ordered[i].concurrency in usable && usable[ordered[i].concurrency] == ordered[i].rate.value
      else ordered[i].concurrency !in usable
  }

  ghost predicate HasLevel(ordered: seq<Level>, c: int) {
    exists i :: 0 <= i < |ordered| && ordered[i].concurrency == c
  }

  lemma {:induction false} MeasuredAre(ordered: seq<Level>)
    requires forall i, j :: 0 <= i < j < |ordered| ==> ordered[i].concurrency < ordered[j].concurrency
    ensures forall i :: 0 <= i < |ordered| ==>
              var l, m := ordered[i], Measured(ordered);
              if !l.contaminated && l.rate.Some? then l.concurrency in m && m[l.concurrency] == l.rate.value
              else l.concurrency !in m
    ensures forall c :: c in Measured(ordered) ==> HasLevel(ordered, c)
  {
    if ordered != [] {
      var n := |ordered| - 1;
      var rest := ordered[..n];
      MeasuredAre(rest);
      forall c | c in Measured(ordered)
        ensures HasLevel(ordered, c)
      {
        assert ordered[n].concurrency == c || c in Measured(rest);
        if c in Measured(rest) {
          var i :| 0 <= i < |rest| && rest[i].concurrency == c;
          assert ordered[i].concurrency == c;
        }
      }
      forall i | 0 <= i < |ordered|
        ensures var l, m := ordered[i], Measured(ordered);
                if !l.contaminated && l.rate.Some? then l.concurrency in m && m[l.concurrency] == l.rate.value
                else l.concurrency !in m
      {
        if i < n {
          assert rest[i] == ordered[i];
        }
      }
    }
  }

  lemma {:induction false} UsableAre(ordered: seq<Level>, measured: map<int, real>, minSamples: int)
    requires forall i, j :: 0 <= i < j < |ordered| ==> ordered[i].concurrency < ordered[j].concurrency
    requires forall i :: 0 <= i < |ordered| ==>
               var l := ordered[i];
               if !l.contaminated && l.rate.Some?
                then l.concurrency in measured && measured[l.concurrency] == l.rate.value
               else l.concurrency !in measured
    ensures HoldsRates(UsableOf(ordered, measured, minSamples), ordered, minSamples)
    ensures forall c :: c in UsableOf(ordered, measured, minSamples) ==> HasLevel(ordered, c)
  {
    if ordered != [] {
      var n := |ordered| - 1;
      var rest := ordered[..n];
      UsableAre(rest, measured, minSamples);
      var usable := UsableOf(ordered, measured, minSamples);
      forall c | c in usable
        ensures HasLevel(ordered, c)
      {
        if c != ordered[n].concurrency {
          var i :| 0 <= i < |rest| && rest[i].concurrency == c;
          assert ordered[i].concurrency == c;
        }
      }
      forall i | 0 <= i < |ordered|
        ensures if IsUsable(ordered[i], minSamples)
                then ordered[i].concurrency in usable && usable[ordered[i].concurrency] == ordered[i].rate.value
                else ordered[i].concurrency !in usable
      {
        if i < n {
          assert rest[i] == ordered[i];
        }
      }
    }
  }

  lemma RatesHeld(ordered: seq<Level>, minSamples: int)
    requires forall i, j :: 0 <= i < j < |ordered| ==> ordered[i].concurrency < ordered[j].concurrency
    ensures HoldsRates(Usable(ordered, minSamples), ordered, minSamples)
    ensures forall c :: c in Usable(ordered, minSamples) ==> HasLevel(ordered, c)
  {
    MeasuredAre(ordered);
    UsableAre(ordered, Measured(ordered), minSamples);
  }

  // ----- the peak and the band

  /** The first usable level, in ascending order, with the greatest rate. */
  ghost predicate IsPeak(i: nat, ordered: seq<Level>, minSamples: int) {
    && i < |ordered| && IsUsable(ordered[i], minSamples)
    && (forall j :: 0 <= j < |ordered| && IsUsable(ordered[j], minSamples) ==>
          if j < i then ordered[j].rate.value < ordered[i].rate.value
          else ordered[j].rate.value <= ordered[i].rate.value)
  }

  lemma {:induction false} PeakIs(ordered: seq<Level>, usable: map<int, real>, minSamples: int)
    requires forall i, j :: 0 <= i < j < |ordered| ==> ordered[i].concurrency < ordered[j].concurrency
    requires forall i :: 0 <= i < |ordered| ==>
               if IsUsable(ordered[i], minSamples)
               then ordered[i].concurrency in usable && usable[ordered[i].concurrency] == ordered[i].rate.value
               else ordered[i].concurrency !in usable
    ensures PeakLevel(ordered, usable).None? ==> forall i :: 0 <= i < |ordered| ==> !IsUsable(ordered[i], minSamples)
    ensures PeakLevel(ordered, usable).Some? ==>
              exists i: nat ::
                IsPeak(i, ordered, minSamples) && ordered[i].concurrency == PeakLevel(ordered, usable).value
  {
    if ordered != [] {
      var n := |ordered| - 1;
      var rest := ordered[..n];
      PeakIs(rest, usable, minSamples);
      assert forall j :: 0 <= j < n ==> rest[j] == ordered[j];
      if PeakLevel(rest, usable).Some? {
        var i: nat :| IsPeak(i, rest, minSamples) && rest[i].concurrency == PeakLevel(rest, usable).value;
        assert ordered[i] == rest[i];
        if PeakLevel(ordered, usable) == PeakLevel(rest, usable) {
          assert IsPeak(i, ordered, minSamples);
        } else {
          assert IsPeak(n, ordered, minSamples);
        }
      } else if PeakLevel(ordered, usable).Some? {
        assert IsPeak(n, ordered, minSamples);
      }
    }
  }

  /** At least two percent, and at least how far any two of the rates lie apart, relative to the lesser. */
  ghost predicate IsBand(band: real, baselines: seq<real>)
    requires AllPositive(baselines)
  {
    && 0.02 <= band
    && (forall i, j :: 0 <= i < |baselines| && 0 <= j < |baselines| ==> baselines[i] / baselines[j] - 1.0 <= band)
    && (band == 0.02
        || exists i, j :: 0 <= i < |baselines| && 0 <= j < |baselines| && band == baselines[i] / baselines[j] - 1.0)
  }

  lemma {:induction false} ExtremesOf(s: seq<real>)
    requires s != []
    ensures exists i :: 0 <= i < |s| && s[i] == Greatest(s)
    ensures exists i :: 0 <= i < |s| && s[i] == Least(s)
    ensures forall i :: 0 <= i < |s| ==> Least(s) <= s[i] <= Greatest(s)
  {
    if |s| == 1 {
      assert s[0] == Greatest(s) == Least(s);
    } else {
      ExtremesOf(s[1..]);
      var i :| 0 <= i < |s[1..]| && s[1..][i] == Greatest(s[1..]);
      var j :| 0 <= j < |s[1..]| && s[1..][j] == Least(s[1..]);
      assert s[i + 1] == Greatest(s[1..]) && s[j + 1] == Least(s[1..]) && s[0] == s[0];
    }
  }

  lemma QuotientGrows(x: real, y: real, high: real, low: real)
    requires 0.0 < low <= y && 0.0 < x <= high
    ensures x / y <= high / low
  {
    var p, q := x / y, high / low;
    assert p * y == x && q * low == high;
    assert q > 0.0;
    assert q * low <= q * y;
    assert (q - p) * y >= 0.0;
  }

  lemma SelfQuotient(x: real)
    requires x > 0.0
    ensures x / x - 1.0 == 0.0
  {
  }

  lemma BandIs(baselines: seq<real>)
    requires AllPositive(baselines)
    ensures IsBand(Band(baselines), baselines)
  {
    if |baselines| == 1 {
      SelfQuotient(baselines[0]);
      assert forall i :: 0 <= i < |baselines| ==> baselines[i] == baselines[0];
    } else if |baselines| > 1 {
      LeastPositive(baselines);
      ExtremesOf(baselines);
      forall i, j | 0 <= i < |baselines| && 0 <= j < |baselines|
        ensures baselines[i] / baselines[j] - 1.0 <= Band(baselines)
      {
        QuotientGrows(baselines[i], baselines[j], Greatest(baselines), Least(baselines));
      }
      var i :| 0 <= i < |baselines| && baselines[i] == Greatest(baselines);
      var j :| 0 <= j < |baselines| && baselines[j] == Least(baselines);
      assert Spread(baselines) == baselines[i] / baselines[j] - 1.0;
    }
  }

  // ----- the verdict

  /** More than the band by more than the relative tolerance of a comparison. */
  predicate ClearlyMore(x: real, band: real) {
    x > band && x - band > 0.000000001 * x
  }

  predicate ClearlyLess(x: real, band: real) {
    x < band && band - x > 0.000000001 * band
  }

  /** The throughput fell: clearly over the last step, or the last two levels both lie clearly below the peak. */
  predicate Declines(previous: real, last: real, peak: real, band: real)
    requires previous > 0.0 && peak > 0.0
  {
    || ClearlyMore(1.0 - last / previous, band)
    || (ClearlyMore(1.0 - previous / peak, band) && ClearlyMore(1.0 - last / peak, band))
  }

  /** The last step went neither up nor down by as much as the band. */
  predicate IsFlat(previous: real, last: real, band: real)
    requires previous > 0.0
  {
    ClearlyLess(last / previous - 1.0, band) && ClearlyLess(1.0 - last / previous, band)
  }

  predicate LastTwoUsable(ordered: seq<Level>, minSamples: int) {
    |ordered| >= 2 && IsUsable(ordered[|ordered| - 2], minSamples) && IsUsable(ordered[|ordered| - 1], minSamples)
  }

  predicate KeepsTo(l: Level, minSamples: int, bound: real) {
    IsUsable(l, minSamples) && bound <= l.rate.value
  }

  /** The last `k` levels keep to the bound, and the one before them does not. */
  ghost predicate KeepsLast(ordered: seq<Level>, k: nat, minSamples: int, bound: real) {
    && k <= |ordered|
    && (forall i :: |ordered| - k <= i < |ordered| ==> KeepsTo(ordered[i], minSamples, bound))
    && (k < |ordered| ==> !KeepsTo(ordered[|ordered| - k - 1], minSamples, bound))
  }

  /** The longest run of trailing levels that keep to the bound, two at least. */
  ghost predicate IsPlateau(plateau: seq<int>, ordered: seq<Level>, minSamples: int, bound: real) {
    var n, k := |ordered|, |plateau|;
    && 2 <= k && KeepsLast(ordered, k, minSamples, bound)
    && plateau == seq(k, i requires 0 <= i < k => ordered[n - k + i].concurrency)
  }

  /** The rates of the last `k` levels. */
  function LastRates(ordered: seq<Level>, k: nat): (rates: seq<real>)
    requires k <= |ordered|
  {
    seq(k, i requires 0 <= i < k => RateOf(ordered[|ordered| - k + i]))
  }

  function RateOf(l: Level): (rate: real) {
    match l.rate { case Some(rate) => rate case None => 0.0 }
  }

  /** Without any usable level there is nothing to say. */
  predicate NothingSaid(r: Report) {
    && r.status == NotReached && r.peakLevel.None? && r.maxObserved.None? && r.xMax.None?
    && r.declinePct.None? && r.plateau == []
  }

  /** The last two levels are usable and their throughput fell. */
  predicate TailFell(ordered: seq<Level>, minSamples: int, peak: real, band: real)
    requires peak > 0.0
  {
    LastTwoUsable(ordered, minSamples)
    && Declines(RateOf(ordered[|ordered| - 2]), RateOf(ordered[|ordered| - 1]), peak, band)
  }

  /** The last two levels are usable and went neither up nor down. */
  predicate TailFlat(ordered: seq<Level>, minSamples: int, band: real) {
    LastTwoUsable(ordered, minSamples) && IsFlat(RateOf(ordered[|ordered| - 2]), RateOf(ordered[|ordered| - 1]), band)
  }

  predicate LastTwoKeepTo(ordered: seq<Level>, minSamples: int, bound: real) {
    && |ordered| >= 2
    && KeepsTo(ordered[|ordered| - 2], minSamples, bound) && KeepsTo(ordered[|ordered| - 1], minSamples, bound)
  }

  /** The signed change from the peak to the last level, in percent. */
  function ChangeFromPeak(ordered: seq<Level>, peak: real): (percent: real)
    requires ordered != [] && peak > 0.0
  {
    100.0 * (RateOf(ordered[|ordered| - 1]) / peak - 1.0)
  }

  /** The verdict on a tail that fell or was flat, with `change` the change from the peak at level `level`. */
  ghost predicate Outcome(r: Report, ordered: seq<Level>, minSamples: int, level: int, peak: real, bound: real,
                          fell: bool, flat: bool, change: real)
  {
    && r.peakLevel == Some(level) && r.maxObserved == Some(peak)
    && r.status == (if fell then Declined
                    else if flat && LastTwoKeepTo(ordered, minSamples, bound) then Reached
                    else NotReached)
    && (r.status == Declined ==> r.xMax == Some(peak) && r.declinePct == Some(change))
    && (r.status != Declined ==> r.declinePct.None?)
    && (r.status == NotReached ==> r.xMax.None?)
    && (r.status == Reached ==> IsEstimate(r.xMax, r.plateau, ordered, minSamples, bound))
    && (r.status != Reached ==> r.plateau == [])
  }

  /** The least rate within the band of the peak. */
  function LeastKept(band: real, peak: real): (rate: real) {
    (1.0 - band) * peak
  }

  /** The verdict for a peak at position `p`. */
  ghost predicate VerdictFields(r: Report, ordered: seq<Level>, minSamples: int, p: nat)
    requires IsPeak(p, ordered, minSamples)
  {
    var peak := ordered[p].rate.value;
    Outcome(r, ordered, minSamples, ordered[p].concurrency, peak, LeastKept(r.band, peak),
            TailFell(ordered, minSamples, peak, r.band), TailFlat(ordered, minSamples, r.band),
            ChangeFromPeak(ordered, peak))
  }

  /** The capacity estimate: the median rate of the plateau. */
  ghost predicate IsEstimate(x: Option<real>, plateau: seq<int>, ordered: seq<Level>, minSamples: int, bound: real) {
    exists median :: x == Some(median) && IsMedianOf(median, plateau, ordered, minSamples, bound)
  }

  ghost predicate IsMedianOf(x: real, plateau: seq<int>, ordered: seq<Level>, minSamples: int, bound: real) {
    IsPlateau(plateau, ordered, minSamples, bound) && IsMedian(x, LastRates(ordered, |plateau|))
  }

  lemma CloseIs(x: real, band: real)
    requires band > 0.0
    ensures Beyond(x, band) <==> ClearlyMore(x, band)
    ensures x >= 0.0 ==> (Within(x, band) <==> ClearlyLess(x, band))
  {
  }

  lemma DeclinesIs(previous: real, last: real, peak: real, band: real)
    requires previous > 0.0 && peak > 0.0 && band > 0.0
    ensures TailDeclines(previous, last, peak, band) <==> Declines(previous, last, peak, band)
  {
    CloseIs(-Change(previous, last), band);
    CloseIs(Drop(previous, peak), band);
    CloseIs(Drop(last, peak), band);
  }

  lemma FlatIs(previous: real, last: real, band: real)
    requires previous > 0.0 && band > 0.0
    ensures TailIsFlat(previous, last, band) <==> IsFlat(previous, last, band)
  {
    CloseIs(Abs(Change(previous, last)), band);
  }

  lemma {:induction false} RatesAtLevels(levels: seq<int>, usable: map<int, real>)
    requires forall i :: 0 <= i < |levels| ==> levels[i] in usable
    ensures RatesAt(levels, usable).Ok?
    ensures forall i :: 0 <= i < |levels| ==> RatesAt(levels, usable).value[i] == usable[levels[i]]
  {
    if levels != [] {
      RatesAtLevels(levels[..|levels| - 1], usable);
    }
  }

  /** The curve as the verdict works on it. */
  ghost predicate Curve(ordered: seq<Level>, usable: map<int, real>, minSamples: int) {
    && (forall i, j :: 0 <= i < j < |ordered| ==> ordered[i].concurrency < ordered[j].concurrency)
    && HoldsRates(usable, ordered, minSamples) && Positive(usable)
  }

  lemma KeepsToIs(ordered: seq<Level>, usable: map<int, real>, minSamples: int, bound: real, i: nat)
    requires HoldsRates(usable, ordered, minSamples) && bound > 0.0 && i < |ordered|
    ensures KeepsTo(ordered[i], minSamples, bound) <==> RateOrZero(usable, ordered[i].concurrency) >= bound
    ensures KeepsTo(ordered[i], minSamples, bound) ==> ordered[i].concurrency in usable
  {
    assert if IsUsable(ordered[i], minSamples)
           then ordered[i].concurrency in usable && usable[ordered[i].concurrency] == ordered[i].rate.value
           else ordered[i].concurrency !in usable;
  }

  lemma RunKeeps(ordered: seq<Level>, usable: map<int, real>, minSamples: int, bound: real, k: nat)
    requires HoldsRates(usable, ordered, minSamples) && bound > 0.0 && LongestRun(ordered, usable, bound, k)
    ensures KeepsLast(ordered, k, minSamples, bound)
  {
    forall i | 0 <= i < |ordered|
      ensures KeepsTo(ordered[i], minSamples, bound) <==> RateOrZero(usable, ordered[i].concurrency) >= bound
    {
      KeepsToIs(ordered, usable, minSamples, bound, i);
    }
  }

  lemma LastTwoKeep(ordered: seq<Level>, k: nat, minSamples: int, bound: real)
    requires KeepsLast(ordered, k, minSamples, bound)
    ensures k >= 2 <==> |ordered| >= 2 && KeepsTo(ordered[|ordered| - 2], minSamples, bound)
                        && KeepsTo(ordered[|ordered| - 1], minSamples, bound)
  {
  }

  lemma RunRates(ordered: seq<Level>, usable: map<int, real>, minSamples: int, k: nat)
    requires HoldsRates(usable, ordered, minSamples) && k <= |ordered|
    requires forall i :: |ordered| - k <= i < |ordered| ==> IsUsable(ordered[i], minSamples)
    ensures RatesAt(LastLevels(ordered, k), usable) == Ok(LastRates(ordered, k))
  {
    var s := LastLevels(ordered, k);
    forall i | 0 <= i < k
      ensures s[i] in usable && usable[s[i]] == LastRates(ordered, k)[i]
    {
      var l := ordered[|ordered| - k + i];
      assert IsUsable(l, minSamples);
      assert l.concurrency in usable && usable[l.concurrency] == l.rate.value;
      assert s[i] == l.concurrency;
      assert LastRates(ordered, k)[i] == RateOf(l);
      assert RateOf(l) == l.rate.value;
    }
    RatesAtLevels(s, usable);
    assert RatesAt(s, usable).value == LastRates(ordered, k);
  }

  /** The trailing run the walk finds. */
  lemma RunIs(ordered: seq<Level>, usable: map<int, real>, minSamples: int, bound: real)
    requires HoldsRates(usable, ordered, minSamples) && bound > 0.0
    ensures var s := Suffix(ordered, usable, bound);
            && s == LastLevels(ordered, |s|) && KeepsLast(ordered, |s|, minSamples, bound)
            && (|s| >= 2 ==> IsPlateau(s, ordered, minSamples, bound))
  {
    var s := Suffix(ordered, usable, bound);
    SuffixIsLongestRun(ordered, usable, bound);
    RunKeeps(ordered, usable, minSamples, bound, |s|);
  }

  lemma TailIs(ordered: seq<Level>, usable: map<int, real>, minSamples: int)
    requires HoldsRates(usable, ordered, minSamples) && Positive(usable)
    ensures Tail(ordered, usable)
            == if LastTwoUsable(ordered, minSamples)
               then Some((RateOf(ordered[|ordered| - 2]), RateOf(ordered[|ordered| - 1]))) else None
  {
    var n := |ordered|;
    if n >= 2 {
      assert ordered[n - 2].concurrency in usable <==> IsUsable(ordered[n - 2], minSamples);
      assert ordered[n - 1].concurrency in usable <==> IsUsable(ordered[n - 1], minSamples);
    }
  }

  lemma PeakRate(ordered: seq<Level>, usable: map<int, real>, minSamples: int, p: nat)
    requires Curve(ordered, usable, minSamples) && IsPeak(p, ordered, minSamples)
    ensures PeakLevel(ordered, usable) == Some(ordered[p].concurrency)
    ensures Peak(ordered, usable) == Some(ordered[p].rate.value) && ordered[p].rate.value > 0.0
  {
    PeakIs(ordered, usable, minSamples);
    var i: nat :| IsPeak(i, ordered, minSamples) && ordered[i].concurrency == PeakLevel(ordered, usable).value;
    assert i == p;
  }

  /** What a run of trailing levels comes to. */
  lemma PlateauIs(none: Report, ordered: seq<Level>, usable: map<int, real>, minSamples: int, bound: real)
    requires HoldsRates(usable, ordered, minSamples) && bound > 0.0
    ensures var s := Suffix(ordered, usable, bound);
            var r := OnPlateau(none, usable, s);
            && r.Ok?
            && (|s| >= 2 <==> |ordered| >= 2 && KeepsTo(ordered[|ordered| - 2], minSamples, bound)
                              && KeepsTo(ordered[|ordered| - 1], minSamples, bound))
            && (|s| >= 2 ==> r.value == none.(status := Reached, xMax := r.value.xMax, plateau := s)
                             && IsEstimate(r.value.xMax, s, ordered, minSamples, bound))
            && (|s| < 2 ==> r.value == none)
  {
    var s := Suffix(ordered, usable, bound);
    RunIs(ordered, usable, minSamples, bound);
    LastTwoKeep(ordered, |s|, minSamples, bound);
    if |s| >= 2 {
      RunRates(ordered, usable, minSamples, |s|);
      MedianIsMedian(LastRates(ordered, |s|));
      assert IsMedianOf(Median(LastRates(ordered, |s|)), s, ordered, minSamples, bound);
    }
  }

  /** Nothing decided yet. */
  predicate IsOpen(none: Report, level: int, peak: real) {
    && none.status == NotReached && none.xMax.None? && none.declinePct.None? && none.plateau == []
    && none.peakLevel == Some(level) && none.maxObserved == Some(peak)
  }

  /** The judgement on two final rates, by what the tail did. */
  lemma JudgeIs(none: Report, ordered: seq<Level>, usable: map<int, real>, minSamples: int, bound: real,
                previous: real, last: real, peak: real, level: int, r: Result<Report, Error>)
    requires HoldsRates(usable, ordered, minSamples) && bound > 0.0 && previous > 0.0 && peak > 0.0
    requires IsOpen(none, level, peak)
    requires r == Judge(none, usable, previous, last, peak, Suffix(ordered, usable, bound))
    ensures r.Ok? && r.value.band == none.band && r.value.baselines == none.baselines
    ensures Outcome(r.value, ordered, minSamples, level, peak, bound, TailDeclines(previous, last, peak, none.band),
                    TailIsFlat(previous, last, none.band), 100.0 * Change(peak, last))
  {
    PlateauIs(none, ordered, usable, minSamples, bound);
  }

  lemma NoTail(r: Report, ordered: seq<Level>, minSamples: int, p: nat)
    requires IsPeak(p, ordered, minSamples) && !LastTwoUsable(ordered, minSamples)
    requires IsOpen(r, ordered[p].concurrency, ordered[p].rate.value)
    ensures VerdictFields(r, ordered, minSamples, p)
  {
  }

  lemma VerdictJudges(ordered: seq<Level>, usable: map<int, real>, minSamples: int, baselines: seq<real>, p: nat)
    requires Curve(ordered, usable, minSamples) && AllPositive(baselines) && IsPeak(p, ordered, minSamples)
    ensures var none, peak := Inconclusive(ordered, usable, baselines), ordered[p].rate.value;
            && peak > 0.0 && IsOpen(none, ordered[p].concurrency, peak)
            && none.band == Band(baselines) && none.baselines == baselines
            && (if LastTwoUsable(ordered, minSamples) then
                  && RateOf(ordered[|ordered| - 2]) > 0.0
                  && Verdict(ordered, usable, baselines)
                     == Judge(none, usable, RateOf(ordered[|ordered| - 2]), RateOf(ordered[|ordered| - 1]), peak,
                              Suffix(ordered, usable, Bound(none.band, peak)))
                else Verdict(ordered, usable, baselines) == Ok(none))
  {
    PeakRate(ordered, usable, minSamples, p);
    TailIs(ordered, usable, minSamples);
  }

  lemma AsVerdict(r: Report, ordered: seq<Level>, minSamples: int, p: nat, bound: real, fell: bool, flat: bool,
                  change: real)
    requires IsPeak(p, ordered, minSamples) && ordered[p].rate.value > 0.0
    requires bound == LeastKept(r.band, ordered[p].rate.value)
    requires fell == TailFell(ordered, minSamples, ordered[p].rate.value, r.band)
    requires flat == TailFlat(ordered, minSamples, r.band)
    requires change == ChangeFromPeak(ordered, ordered[p].rate.value)
    requires Outcome(r, ordered, minSamples, ordered[p].concurrency, ordered[p].rate.value, bound, fell, flat, change)
    ensures VerdictFields(r, ordered, minSamples, p)
  {
  }

  lemma TailIsJudged(ordered: seq<Level>, minSamples: int, peak: real, band: real, previous: real, last: real)
    requires LastTwoUsable(ordered, minSamples) && peak > 0.0 && band > 0.0
    requires previous == RateOf(ordered[|ordered| - 2]) && last == RateOf(ordered[|ordered| - 1])
    ensures previous > 0.0 && TailDeclines(previous, last, peak, band) == TailFell(ordered, minSamples, peak, band)
    ensures TailIsFlat(previous, last, band) == TailFlat(ordered, minSamples, band)
    ensures 100.0 * Change(peak, last) == ChangeFromPeak(ordered, peak)
  {
    DeclinesIs(previous, last, peak, band);
    FlatIs(previous, last, band);
  }

  lemma BoundIs(band: real, peak: real)
    ensures Bound(band, peak) == LeastKept(band, peak)
  {
  }

  lemma TailVerdict(none: Report, ordered: seq<Level>, usable: map<int, real>, minSamples: int, p: nat, peak: real,
                    previous: real, last: real, r: Result<Report, Error>)
    requires HoldsRates(usable, ordered, minSamples) && IsPeak(p, ordered, minSamples)
    requires LastTwoUsable(ordered, minSamples) && peak == ordered[p].rate.value
    requires previous == RateOf(ordered[|ordered| - 2]) && last == RateOf(ordered[|ordered| - 1])
    requires IsOpen(none, ordered[p].concurrency, peak) && 0.0 < none.band < 1.0
    requires r == Judge(none, usable, previous, last, peak, Suffix(ordered, usable, Bound(none.band, peak)))
    ensures r.Ok? && r.value.band == none.band && r.value.baselines == none.baselines
    ensures VerdictFields(r.value, ordered, minSamples, p)
  {
    var bound := Bound(none.band, peak);
    BoundIs(none.band, peak);
    PositiveBound(none.band, peak);
    JudgeIs(none, ordered, usable, minSamples, bound, previous, last, peak, ordered[p].concurrency, r);
    JudgedVerdict(r.value, ordered, minSamples, p, peak, none.band, bound, previous, last);
  }

  lemma JudgedVerdict(r: Report, ordered: seq<Level>, minSamples: int, p: nat, peak: real, band: real, bound: real,
                      previous: real, last: real)
    requires IsPeak(p, ordered, minSamples) && LastTwoUsable(ordered, minSamples) && peak == ordered[p].rate.value
    requires previous == RateOf(ordered[|ordered| - 2]) && last == RateOf(ordered[|ordered| - 1])
    requires previous > 0.0 && peak > 0.0 && band > 0.0 && r.band == band && bound == LeastKept(band, peak)
    requires Outcome(r, ordered, minSamples, ordered[p].concurrency, peak, bound,
                     TailDeclines(previous, last, peak, band), TailIsFlat(previous, last, band),
                     100.0 * Change(peak, last))
    ensures VerdictFields(r, ordered, minSamples, p)
  {
    var fell, flat := TailDeclines(previous, last, peak, band), TailIsFlat(previous, last, band);
    var change := 100.0 * Change(peak, last);
    TailIsJudged(ordered, minSamples, peak, band, previous, last);
    AsVerdict(r, ordered, minSamples, p, bound, fell, flat, change);
  }

  /** The verdict on a curve, for a band below one. */
  lemma VerdictIs(ordered: seq<Level>, usable: map<int, real>, minSamples: int, baselines: seq<real>, p: nat)
    requires Curve(ordered, usable, minSamples) && AllPositive(baselines) && Band(baselines) < 1.0
    requires IsPeak(p, ordered, minSamples)
    ensures var r := Verdict(ordered, usable, baselines);
            && r.Ok? && r.value.band == Band(baselines) && r.value.baselines == baselines
            && VerdictFields(r.value, ordered, minSamples, p)
  {
    var none := Inconclusive(ordered, usable, baselines);
    VerdictJudges(ordered, usable, minSamples, baselines, p);
    if LastTwoUsable(ordered, minSamples) {
      TailVerdict(none, ordered, usable, minSamples, p, ordered[p].rate.value, RateOf(ordered[|ordered| - 2]),
                  RateOf(ordered[|ordered| - 1]), Verdict(ordered, usable, baselines));
    } else {
      NoTail(none, ordered, minSamples, p);
    }
  }

  // ----- the report

  lemma SortedIsAscending(stats: seq<Level>)
    requires Distinct(stats)
    ensures IsAscending(SortBy(stats, ByLevel()), stats)
  {
    SortKeeps(stats, ByLevel());
    SortAscends(stats, ByLevel());
    var s := SortBy(stats, ByLevel());
    forall i, j | 0 <= i < j < |s|
      ensures s[i].concurrency < s[j].concurrency
    {
      assert ByLevel()(s[i]) < ByLevel()(s[j]);
    }
  }

  lemma LastIsGreatest(s: seq<Level>, x: Level)
    requires s != [] && x in s
    requires forall i, j :: 0 <= i < j < |s| ==> s[i].concurrency < s[j].concurrency
    ensures x.concurrency < s[|s| - 1].concurrency || x == s[|s| - 1]
  {
    var i :| 0 <= i < |s| && s[i] == x;
  }

  lemma {:induction false} AscendingIsUnique(s: seq<Level>, t: seq<Level>)
    requires forall i, j :: 0 <= i < j < |s| ==> s[i].concurrency < s[j].concurrency
    requires forall i, j :: 0 <= i < j < |t| ==> t[i].concurrency < t[j].concurrency
    requires forall l :: l in s <==> l in t
    ensures s == t
  {
    assert t != [] ==> t[0] in t;
    if s != [] {
      var m, n := |s| - 1, |t| - 1;
      assert s[m] in s && t != [];
      assert t[n] in t;
      LastIsGreatest(s, t[n]);
      LastIsGreatest(t, s[m]);
      assert s == s[..m] + [s[m]] && t == t[..n] + [t[n]];
      forall l
        ensures l in s[..m] <==> l in t[..n]
      {
        assert l in s[..m] <==> l in s && l != s[m];
        assert l in t[..n] <==> l in t && l != t[n];
      }
      AscendingIsUnique(s[..m], t[..n]);
    }
  }

  /** The usable rate of a single user, if there is one. */
  function SingleUser(ordered: seq<Level>, minSamples: int): (rates: seq<real>) {
    if ordered == [] then []
    else
      var last := ordered[|ordered| - 1];
      if last.concurrency == 1 && IsUsable(last, minSamples) then [RateOf(last)]
      else SingleUser(ordered[..|ordered| - 1], minSamples)
  }

  lemma {:induction false} SingleUserIs(ordered: seq<Level>, minSamples: int)
    ensures (forall i :: 0 <= i < |ordered| && IsUsable(ordered[i], minSamples) ==> ordered[i].concurrency != 1)
            ==> SingleUser(ordered, minSamples) == []
    ensures forall i :: (0 <= i < |ordered| && IsUsable(ordered[i], minSamples) && ordered[i].concurrency == 1
                         && forall j :: i < j < |ordered| ==> ordered[j].concurrency != 1)
                        ==> SingleUser(ordered, minSamples) == [RateOf(ordered[i])]
  {
    if ordered != [] {
      SingleUserIs(ordered[..|ordered| - 1], minSamples);
    }
  }

  lemma BaselinesAre(ordered: seq<Level>, usable: map<int, real>, minSamples: int, comparison: seq<real>)
    requires Curve(ordered, usable, minSamples) && forall c :: c in usable ==> HasLevel(ordered, c)
    ensures Baselines(usable, comparison) == SingleUser(ordered, minSamples) + comparison
  {
    SingleUserIs(ordered, minSamples);
    if 1 in usable {
      assert HasLevel(ordered, 1);
      var i :| 0 <= i < |ordered| && ordered[i].concurrency == 1;
      assert IsUsable(ordered[i], minSamples) && usable[1] == RateOf(ordered[i]);
    } else {
      forall i | 0 <= i < |ordered| && IsUsable(ordered[i], minSamples)
        ensures ordered[i].concurrency != 1
      {
        assert ordered[i].concurrency in usable;
      }
    }
  }

  /** No two of the rates differ by as much as a factor of two: the band is below one. */
  ghost predicate WithinFactorTwo(rates: seq<real>) {
    forall i, j :: 0 <= i < |rates| && 0 <= j < |rates| ==> rates[i] < 2.0 * rates[j]
  }

  lemma QuotientBelowTwo(x: real, y: real)
    requires 0.0 < y && x < 2.0 * y
    ensures x / y < 2.0
  {
    var q := x / y;
    assert q * y == x;
    assert (2.0 - q) * y > 0.0;
  }

  lemma BandBelowOne(baselines: seq<real>)
    requires AllPositive(baselines) && WithinFactorTwo(baselines)
    ensures Band(baselines) < 1.0
  {
    if |baselines| > 1 {
      LeastPositive(baselines);
      ExtremesOf(baselines);
      var high, low := Greatest(baselines), Least(baselines);
      QuotientBelowTwo(high, low);
    }
  }

  lemma {:induction false} LookupError(levels: seq<int>, usable: map<int, real>)
    ensures RatesAt(levels, usable).Err? ==> RatesAt(levels, usable).error.NoRate?
  {
    if levels != [] {
      LookupError(levels[..|levels| - 1], usable);
    }
  }

  /** The report refuses exactly a comparison rate that is not positive. */
  lemma BaselinesAreChecked(stats: seq<Level>, minSamples: int, comparison: seq<real>)
    ensures ReportOf(stats, minSamples, comparison) == Err(BadBaseline)
       <==> exists i :: 0 <= i < |comparison| && comparison[i] <= 0.0
  {
    if AllPositive(comparison) {
      var ordered := SortBy(stats, ByLevel());
      var tail, peak := Tail(ordered, Usable(ordered, minSamples)), Peak(ordered, Usable(ordered, minSamples));
      var band := Band(Baselines(Usable(ordered, minSamples), comparison));
      if tail.Some? && peak.Some? {
        LookupError(Suffix(ordered, Usable(ordered, minSamples), Bound(band, peak.value)), Usable(ordered, minSamples));
      }
    }
  }

  lemma UsableCurve(stats: seq<Level>, minSamples: int, ordered: seq<Level>)
    requires Distinct(stats) && IsAscending(ordered, stats)
    ensures SortBy(stats, ByLevel()) == ordered && Curve(ordered, Usable(ordered, minSamples), minSamples)
    ensures forall c :: c in Usable(ordered, minSamples) ==> HasLevel(ordered, c)
  {
    SortedIsAscending(stats);
    AscendingIsUnique(SortBy(stats, ByLevel()), ordered);
    RatesHeld(ordered, minSamples);
  }

  /**
   * The capacity verdict, for every set of per-level statistics with a usable level and a noise band below one:
   * `ordered` are the statistics by level and `p` the place of the peak among them. A tail that fell is a decline
   * to the peak's rate; a flat one within the band of the peak is a plateau, and the estimate its median rate.
   */
  lemma ReportIs(stats: seq<Level>, minSamples: int, comparison: seq<real>, ordered: seq<Level>, p: nat)
    requires Distinct(stats) && IsAscending(ordered, stats) && IsPeak(p, ordered, minSamples)
    requires forall i :: 0 <= i < |comparison| ==> comparison[i] > 0.0
    requires WithinFactorTwo(SingleUser(ordered, minSamples) + comparison)
    ensures var r := ReportOf(stats, minSamples, comparison);
            && r.Ok? && r.value.baselines == SingleUser(ordered, minSamples) + comparison
            && AllPositive(r.value.baselines) && IsBand(r.value.band, r.value.baselines)
            && VerdictFields(r.value, ordered, minSamples, p)
  {
    var usable := Usable(ordered, minSamples);
    UsableCurve(stats, minSamples, ordered);
    BaselinesAre(ordered, usable, minSamples, comparison);
    var baselines := Baselines(usable, comparison);
    assert AllPositive(baselines);
    BandBelowOne(baselines);
    BandIs(baselines);
    VerdictIs(ordered, usable, minSamples, baselines, p);
  }

  /** Without a usable level the report says nothing. */
  lemma NothingUsable(stats: seq<Level>, minSamples: int, comparison: seq<real>, ordered: seq<Level>)
    requires Distinct(stats) && IsAscending(ordered, stats)
    requires forall i :: 0 <= i < |ordered| ==> !IsUsable(ordered[i], minSamples)
    requires forall i :: 0 <= i < |comparison| ==> comparison[i] > 0.0
    ensures ReportOf(stats, minSamples, comparison).Ok? && NothingSaid(ReportOf(stats, minSamples, comparison).value)
  {
    UsableCurve(stats, minSamples, ordered);
    PeakIs(ordered, Usable(ordered, minSamples), minSamples);
    TailIs(ordered, Usable(ordered, minSamples), minSamples);
  }
}
