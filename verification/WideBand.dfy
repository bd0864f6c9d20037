/** kneepoint/analyze/scaling.py: what a noise band of one or more does to the capacity report. */
module WideBand {
  import opened Basics
  import opened Scaling
  import opened ScalingReading

  /** The bound is not positive: even a level without a rate keeps to it, so the walk goes back to the first level. */
  lemma {:induction false} WalksAll(ordered: seq<Level>, usable: map<int, real>, bound: real)
    requires bound <= 0.0 && Positive(usable)
    ensures Suffix(ordered, usable, bound) == LastLevels(ordered, |ordered|)
  {
    if ordered != [] {
      var rest := ordered[..|ordered| - 1];
      WalksAll(rest, usable, bound);
      assert LastLevels(ordered, |ordered|) == LastLevels(rest, |rest|) + [ordered[|ordered| - 1].concurrency];
    }
  }

  /** The first of the levels without a rate. */
  ghost predicate FirstWithout(levels: seq<int>, usable: map<int, real>, i: nat) {
    i < |levels| && levels[i] !in usable && forall j :: 0 <= j < i ==> levels[j] in usable
  }

  lemma {:induction false} LooksUp(levels: seq<int>, usable: map<int, real>)
    ensures match RatesAt(levels, usable)
            case Ok(rates) => |rates| == |levels|
                              && forall i :: 0 <= i < |levels| ==> levels[i] in usable && rates[i] == usable[levels[i]]
            case Err(error) => exists i: nat :: FirstWithout(levels, usable, i) && error == NoRate(levels[i])
  {
    if levels != [] {
      var before := levels[..|levels| - 1];
      LooksUp(before, usable);
      if RatesAt(before, usable).Err? {
        var i: nat :| FirstWithout(before, usable, i) && RatesAt(before, usable).error == NoRate(before[i]);
        assert FirstWithout(levels, usable, i);
      } else if levels[|before|] !in usable {
        assert forall j :: 0 <= j < |before| ==> levels[j] == before[j];
        assert FirstWithout(levels, usable, |before|);
      }
    }
  }

  /** The lowest level that is not usable. */
  ghost predicate FirstUnusable(ordered: seq<Level>, minSamples: int, i: nat) {
    && i < |ordered| && !IsUsable(ordered[i], minSamples)
    && forall j :: 0 <= j < i ==> IsUsable(ordered[j], minSamples)
  }

  predicate AllUsable(ordered: seq<Level>, minSamples: int) {
    forall i :: 0 <= i < |ordered| ==> IsUsable(ordered[i], minSamples)
  }

  /** All levels' concurrencies. */
  function AllLevels(ordered: seq<Level>): (s: seq<int>) {
    seq(|ordered|, i requires 0 <= i < |ordered| => ordered[i].concurrency)
  }

  /** With a flat tail: every level on the plateau, or the lookup of the lowest level that is not usable. */
  ghost predicate FlatOutcome(r: Result<Report, Error>, ordered: seq<Level>, minSamples: int) {
    if AllUsable(ordered, minSamples) then
      && r.Ok? && r.value.status == Reached && r.value.plateau == AllLevels(ordered)
      && r.value.xMax.Some? && IsMedian(r.value.xMax.value, LastRates(ordered, |ordered|))
    else exists i: nat :: FirstUnusable(ordered, minSamples, i) && r == Err(NoRate(ordered[i].concurrency))
  }

  /** The whole verdict for a band of one or more: there is no decline. */
  ghost predicate WideOutcome(r: Result<Report, Error>, ordered: seq<Level>, minSamples: int, band: real) {
    if TailFlat(ordered, minSamples, band) then FlatOutcome(r, ordered, minSamples)
    else r.Ok? && r.value.status == NotReached && r.value.xMax.None? && r.value.plateau == []
  }

  lemma FlatIsJudged(none: Report, ordered: seq<Level>, usable: map<int, real>, minSamples: int)
    requires Curve(ordered, usable, minSamples) && |ordered| >= 2
    ensures FlatOutcome(OnPlateau(none, usable, LastLevels(ordered, |ordered|)), ordered, minSamples)
  {
    var all := LastLevels(ordered, |ordered|);
    assert all == AllLevels(ordered);
    forall i | 0 <= i < |ordered|
      ensures all[i] in usable <==> IsUsable(ordered[i], minSamples)
      ensures all[i] in usable ==> usable[all[i]] == LastRates(ordered, |ordered|)[i]
    {
      assert IsUsable(ordered[i], minSamples) ==> usable[ordered[i].concurrency] == ordered[i].rate.value;
    }
    LooksUp(all, usable);
    match RatesAt(all, usable) {
      case Ok(rates) =>
        assert rates == LastRates(ordered, |ordered|);
        MedianIsMedian(rates);
      case Err(error) =>
        var i: nat :| FirstWithout(all, usable, i) && error == NoRate(all[i]);
        assert FirstUnusable(ordered, minSamples, i);
    }
  }

  lemma NoDrop(value: real, peak: real, band: real)
    requires value > 0.0 && peak > 0.0 && band >= 1.0
    ensures !Beyond(Drop(value, peak), band)
  {
  }

  lemma NoDecline(previous: real, last: real, peak: real, band: real)
    requires previous > 0.0 && last > 0.0 && peak > 0.0 && band >= 1.0
    ensures !TailDeclines(previous, last, peak, band)
  {
    NoDrop(previous, peak, band);
    NoDrop(last, previous, band);
  }

  lemma WideBound(band: real, peak: real)
    requires band >= 1.0 && peak > 0.0
    ensures Bound(band, peak) <= 0.0
  {
  }

  lemma WideTail(none: Report, ordered: seq<Level>, usable: map<int, real>, minSamples: int, peak: real)
    requires Curve(ordered, usable, minSamples) && LastTwoUsable(ordered, minSamples) && peak > 0.0
    requires none.band >= 1.0 && none.status == NotReached && none.xMax.None? && none.plateau == []
    ensures var previous, last := RateOf(ordered[|ordered| - 2]), RateOf(ordered[|ordered| - 1]);
            && previous > 0.0
            && WideOutcome(Judge(none, usable, previous, last, peak, Suffix(ordered, usable, Bound(none.band, peak))),
                           ordered, minSamples, none.band)
  {
    var previous, last := RateOf(ordered[|ordered| - 2]), RateOf(ordered[|ordered| - 1]);
    TailIsJudged(ordered, minSamples, peak, none.band, previous, last);
    NoDecline(previous, last, peak, none.band);
    WideBound(none.band, peak);
    WalksAll(ordered, usable, Bound(none.band, peak));
    FlatIsJudged(none, ordered, usable, minSamples);
  }

  /** The verdict on a curve, for a band of one or more. */
  lemma WideVerdict(ordered: seq<Level>, usable: map<int, real>, minSamples: int, baselines: seq<real>, p: nat)
    requires Curve(ordered, usable, minSamples) && AllPositive(baselines) && Band(baselines) >= 1.0
    requires IsPeak(p, ordered, minSamples)
    ensures WideOutcome(Verdict(ordered, usable, baselines), ordered, minSamples, Band(baselines))
  {
    VerdictJudges(ordered, usable, minSamples, baselines, p);
    if LastTwoUsable(ordered, minSamples) {
      WideTail(Inconclusive(ordered, usable, baselines), ordered, usable, minSamples, ordered[p].rate.value);
    }
  }

  lemma BandIsOne(a: real, b: real, baselines: seq<real>)
    requires AllPositive(baselines) && IsBand(a, baselines) && IsBand(b, baselines)
    ensures a == b
  {
  }

  /** The report for any statistics with a usable level, when the noise band is one or more. */
  lemma WideReport(stats: seq<Level>, minSamples: int, comparison: seq<real>, ordered: seq<Level>, p: nat, band: real)
    requires Distinct(stats) && IsAscending(ordered, stats) && IsPeak(p, ordered, minSamples)
    requires AllPositive(SingleUser(ordered, minSamples) + comparison) && AllPositive(comparison)
    requires IsBand(band, SingleUser(ordered, minSamples) + comparison) && band >= 1.0
    ensures WideOutcome(ReportOf(stats, minSamples, comparison), ordered, minSamples, band)
  {
    var usable := Usable(ordered, minSamples);
    UsableCurve(stats, minSamples, ordered);
    BaselinesAre(ordered, usable, minSamples, comparison);
    var baselines := Baselines(usable, comparison);
    BandIs(baselines);
    BandIsOne(Band(baselines), band, baselines);
    WideVerdict(ordered, usable, minSamples, baselines, p);
  }

  /**
   * When the report raises for want of a rate: exactly when the band is one or more, the last two levels are
   * usable and flat, and some level of the ramp is not usable.
   */
  lemma LookupFailsIff(stats: seq<Level>, minSamples: int, comparison: seq<real>, ordered: seq<Level>, band: real)
    requires Distinct(stats) && IsAscending(ordered, stats)
    requires AllPositive(SingleUser(ordered, minSamples) + comparison) && AllPositive(comparison)
    requires IsBand(band, SingleUser(ordered, minSamples) + comparison)
    ensures (exists c :: ReportOf(stats, minSamples, comparison) == Err(NoRate(c)))
       <==> band >= 1.0 && TailFlat(ordered, minSamples, band) && !AllUsable(ordered, minSamples)
  {
    if exists p: nat :: IsPeak(p, ordered, minSamples) {
      var p: nat :| IsPeak(p, ordered, minSamples);
      if band >= 1.0 {
        WideReport(stats, minSamples, comparison, ordered, p, band);
      } else {
        NarrowReport(stats, minSamples, comparison, ordered, p, band);
      }
    } else {
      NoneUsable(ordered, minSamples);
      NothingUsable(stats, minSamples, comparison, ordered);
    }
  }

  lemma NarrowReport(stats: seq<Level>, minSamples: int, comparison: seq<real>, ordered: seq<Level>, p: nat, band: real)
    requires Distinct(stats) && IsAscending(ordered, stats) && IsPeak(p, ordered, minSamples)
    requires AllPositive(SingleUser(ordered, minSamples) + comparison) && AllPositive(comparison)
    requires IsBand(band, SingleUser(ordered, minSamples) + comparison) && band < 1.0
    ensures ReportOf(stats, minSamples, comparison).Ok?
  {
    var usable := Usable(ordered, minSamples);
    UsableCurve(stats, minSamples, ordered);
    BaselinesAre(ordered, usable, minSamples, comparison);
    var baselines := Baselines(usable, comparison);
    BandIs(baselines);
    BandIsOne(Band(baselines), band, baselines);
    VerdictIs(ordered, usable, minSamples, baselines, p);
  }

  /** Some usable level has the greatest rate, if any level is usable. */
  lemma {:induction false} NoneUsable(ordered: seq<Level>, minSamples: int)
    requires forall p: nat :: !IsPeak(p, ordered, minSamples)
    ensures forall i :: 0 <= i < |ordered| ==> !IsUsable(ordered[i], minSamples)
  {
    if ordered != [] {
      var n := |ordered| - 1;
      var rest := ordered[..n];
      if exists p: nat :: IsPeak(p, rest, minSamples) {
        var p: nat :| IsPeak(p, rest, minSamples);
        assert forall j :: 0 <= j < n ==> rest[j] == ordered[j];
        assert !IsPeak(p, ordered, minSamples);
        assert IsPeak(n, ordered, minSamples);
      } else {
        NoneUsable(rest, minSamples);
        assert forall j :: 0 <= j < n ==> rest[j] == ordered[j];
        assert !IsPeak(n, ordered, minSamples);
      }
    }
  }

  lemma BandOfTwo(rates: seq<real>)
    requires rates == [10.0, 30.0]
    ensures AllPositive(rates) && IsBand(2.0, rates)
  {
    assert rates[1] / rates[0] - 1.0 == 2.0;
  }

  function HalfMeasured(): (stats: seq<Level>) {
    [Level(1, false, None, 0), Level(2, false, Some(5.0), 10), Level(3, false, Some(5.0), 10)]
  }

  lemma HalfShape(stats: seq<Level>)
    requires stats == HalfMeasured()
    ensures Distinct(stats) && IsAscending(stats, stats) && SingleUser(stats, 10) == []
  {
    SingleUserIs(stats, 10);
  }

  lemma HalfVerdict(stats: seq<Level>)
    requires stats == HalfMeasured()
    ensures IsPeak(1, stats, 10) && TailFlat(stats, 10, 2.0)
    ensures !AllUsable(stats, 10) && stats[0].concurrency == 1 && !IsUsable(stats[0], 10)
  {
    assert !IsUsable(stats[0], 10);
  }

  lemma FirstIsRaised(r: Result<Report, Error>, ordered: seq<Level>, minSamples: int, band: real)
    requires WideOutcome(r, ordered, minSamples, band) && TailFlat(ordered, minSamples, band)
    requires !IsUsable(ordered[0], minSamples)
    ensures r == Err(NoRate(ordered[0].concurrency))
  {
    var i: nat :| FirstUnusable(ordered, minSamples, i) && r == Err(NoRate(ordered[i].concurrency));
    assert i == 0;
  }

  lemma HalfRaises(stats: seq<Level>, rates: seq<real>)
    requires Distinct(stats) && IsAscending(stats, stats) && SingleUser(stats, 10) == []
    requires IsPeak(1, stats, 10) && TailFlat(stats, 10, 2.0) && !IsUsable(stats[0], 10)
    requires AllPositive(rates) && IsBand(2.0, rates)
    ensures ReportOf(stats, 10, rates) == Err(NoRate(stats[0].concurrency))
  {
    assert [] + rates == rates;
    WideReport(stats, 10, rates, stats, 1, 2.0);
    FirstIsRaised(ReportOf(stats, 10, rates), stats, 10, 2.0);
  }

  /** Comparison rates of 10 and 30 make a band of two; then a level without a rate below a flat tail raises. */
  lemma WideBandCanRaise()
    ensures ReportOf(HalfMeasured(), 10, [10.0, 30.0]) == Err(NoRate(1))
  {
    HalfShape(HalfMeasured());
    HalfVerdict(HalfMeasured());
    BandOfTwo([10.0, 30.0]);
    HalfRaises(HalfMeasured(), [10.0, 30.0]);
  }
}
