/**
 * kneepoint/analyze/scaling.py: does the successful throughput plateau, decline after a peak, or neither?
 *
 * Rates are exact reals; an unmeasured or non-finite rate is `None`.
 */
module Scaling {
  import opened Basics
  import opened Ordering
  import opened Percentile

  const PLATEAU_TOLERANCE := 0.02
  const RELATIVE_TOLERANCE := 0.000000001

  datatype Level = Level(concurrency: int, contaminated: bool, rate: Option<real>, successes: int)

  datatype Status = Reached | NotReached | Declined

  datatype Report = Report(
    maxObserved: Option<real>,
    xMax: Option<real>,
    status: Status,
    peakLevel: Option<int>,
    declinePct: Option<real>,
    band: real,
    baselines: seq<real>,
    plateau: seq<int>)

  /** A comparison rate that is not positive, or a plateau level without a rate. */
  datatype Error = BadBaseline | NoRate(concurrency: int)

  function ByLevel(): (f: Level -> int) {
    (l: Level) => l.concurrency
  }

  // ----- eligible rates

  /** The uncontaminated measured rates; a repeated level keeps the later one. */
  function Measured(ordered: seq<Level>): (m: map<int, real>) {
    if ordered == [] then map[]
    else
      var before, last := Measured(ordered[..|ordered| - 1]), ordered[|ordered| - 1];
      if !last.contaminated && last.rate.Some? then before[last.concurrency := last.rate.value] else before
  }

  predicate Positive(usable: map<int, real>) {
    forall c :: c in usable ==> usable[c] > 0.0
  }

  predicate AllPositive(rates: seq<real>) {
    forall i :: 0 <= i < |rates| ==> rates[i] > 0.0
  }

  function UsableOf(ordered: seq<Level>, measured: map<int, real>, minSamples: int): (usable: map<int, real>)
    ensures Positive(usable) && forall c :: c in usable ==> c in measured && usable[c] == measured[c]
  {
    if ordered == [] then map[]
    else
      var before, last := UsableOf(ordered[..|ordered| - 1], measured, minSamples), ordered[|ordered| - 1];
      if last.concurrency in measured && measured[last.concurrency] > 0.0 && last.successes >= MaxInt(1, minSamples)
      then before[last.concurrency := measured[last.concurrency]] else before
  }

  function Usable(ordered: seq<Level>, minSamples: int): (usable: map<int, real>)
    ensures Positive(usable)
  {
    UsableOf(ordered, Measured(ordered), minSamples)
  }

  /** The first level, in increasing order, with the greatest rate. */
  function PeakLevel(ordered: seq<Level>, usable: map<int, real>): (c: Option<int>)
    ensures c.Some? ==> c.value in usable
  {
    if ordered == [] then None
    else
      var before, last := PeakLevel(ordered[..|ordered| - 1], usable), ordered[|ordered| - 1].concurrency;
      if last in usable && (before.None? || usable[last] > usable[before.value]) then Some(last) else before
  }

  function Peak(ordered: seq<Level>, usable: map<int, real>): (r: Option<real>) {
    var c := PeakLevel(ordered, usable);
    if c.Some? then Some(usable[c.value]) else None
  }

  // ----- the noise band

  function Greatest(s: seq<real>): (x: real)
    requires s != []
  {
    if |s| == 1 then s[0] else MaxReal(s[0], Greatest(s[1..]))
  }

  function Least(s: seq<real>): (x: real)
    requires s != []
  {
    if |s| == 1 then s[0] else MinReal(s[0], Least(s[1..]))
  }

  lemma {:induction false} LeastPositive(s: seq<real>)
    requires s != [] && AllPositive(s)
    ensures 0.0 < Least(s) <= Greatest(s)
  {
    if |s| > 1 {
      LeastPositive(s[1..]);
    }
  }

  function Spread(baselines: seq<real>): (x: real)
    requires AllPositive(baselines)
  {
    if |baselines| <= 1 then 0.0
    else
      LeastPositive(baselines);
      Greatest(baselines) / Least(baselines) - 1.0
  }

  function Band(baselines: seq<real>): (b: real)
    requires AllPositive(baselines)
    ensures b >= PLATEAU_TOLERANCE
  {
    MaxReal(PLATEAU_TOLERANCE, Spread(baselines))
  }

  /** `math.isclose` with its default relative tolerance. */
  predicate IsClose(a: real, b: real) {
    Abs(a - b) <= RELATIVE_TOLERANCE * MaxReal(Abs(a), Abs(b))
  }

  // ----- the verdict

  /** The last two levels' rates, when both are usable. */
  function Tail(ordered: seq<Level>, usable: map<int, real>): (t: Option<(real, real)>)
    requires Positive(usable)
    ensures t.Some? ==> t.value.0 > 0.0 && t.value.1 > 0.0
  {
    var n := |ordered|;
    if n >= 2 && ordered[n - 2].concurrency in usable && ordered[n - 1].concurrency in usable
    then Some((usable[ordered[n - 2].concurrency], usable[ordered[n - 1].concurrency])) else None
  }

  function Change(previous: real, last: real): (x: real)
    requires previous > 0.0
  {
    last / previous - 1.0
  }

  function Drop(value: real, peak: real): (x: real)
    requires peak > 0.0
  {
    1.0 - value / peak
  }

  /** Clearly beyond the band. */
  predicate Beyond(x: real, band: real) {
    x > band && !IsClose(x, band)
  }

  predicate Within(x: real, band: real) {
    x < band && !IsClose(x, band)
  }

  predicate TailDeclines(previous: real, last: real, peak: real, band: real)
    requires previous > 0.0 && peak > 0.0
  {
    Beyond(-Change(previous, last), band) || (Beyond(Drop(previous, peak), band) && Beyond(Drop(last, peak), band))
  }

  predicate TailIsFlat(previous: real, last: real, band: real)
    requires previous > 0.0
  {
    Within(Abs(Change(previous, last)), band)
  }

  function RateOrZero(usable: map<int, real>, c: int): (x: real) {
    if c in usable then usable[c] else 0.0
  }

  /** Walking back from the last level while the rate stays at or above the bound. */
  function Suffix(ordered: seq<Level>, usable: map<int, real>, bound: real): (s: seq<int>)
    ensures |s| <= |ordered|
  {
    if ordered == [] then []
    else
      var last := ordered[|ordered| - 1].concurrency;
      if RateOrZero(usable, last) < bound then [] else Suffix(ordered[..|ordered| - 1], usable, bound) + [last]
  }

  /** `statistics.median`. */
  function Median(values: seq<real>): (x: real)
    requires values != []
  {
    SortSorts(values);
    var s, n := Sort(values), |values|;
    if n % 2 == 1 then s[n / 2] else Middle(s[n / 2 - 1], s[n / 2])
  }

  function Middle(x: real, y: real): (result: real) {
    (x + y) / 2.0
  }

  /** The plateau's rates, or the level that has none. */
  function RatesAt(levels: seq<int>, usable: map<int, real>): (rates: Result<seq<real>, Error>)
    ensures rates.Ok? ==> |rates.value| == |levels|
  {
    if levels == [] then Ok([])
    else
      var n := |levels| - 1;
      var before := RatesAt(levels[..n], usable);
      if before.Err? then before
      else if levels[n] in usable then Ok(before.value + [usable[levels[n]]])
      else Err(NoRate(levels[n]))
  }

  function Inconclusive(ordered: seq<Level>, usable: map<int, real>, baselines: seq<real>): (report: Report)
    requires AllPositive(baselines)
  {
    Report(Peak(ordered, usable), None, NotReached, PeakLevel(ordered, usable), None, Band(baselines), baselines, [])
  }

  function Verdict(ordered: seq<Level>, usable: map<int, real>, baselines: seq<real>): (r: Result<Report, Error>)
    requires Positive(usable) && AllPositive(baselines)
  {
    var none := Inconclusive(ordered, usable, baselines);
    var tail, peak := Tail(ordered, usable), none.maxObserved;
    if tail.None? || peak.None? then Ok(none)
    else
      Judge(none, usable, tail.value.0, tail.value.1, peak.value,
            Suffix(ordered, usable, Bound(none.band, peak.value)))
  }

  /** The verdict on two usable final levels; `run` is the trailing run within the band of the peak. */
  function Judge(none: Report, usable: map<int, real>, previous: real, last: real, peak: real, run: seq<int>)
    : (r: Result<Report, Error>)
    requires previous > 0.0 && peak > 0.0
  {
    if TailDeclines(previous, last, peak, none.band) then
      Ok(none.(status := Declined, xMax := Some(peak), declinePct := Some(100.0 * Change(peak, last))))
    else
      OnPlateau(none, usable, if TailIsFlat(previous, last, none.band) then run else [])
  }

  /** The least rate that still counts as the peak. */
  function Bound(band: real, peak: real): (x: real) {
    (1.0 - band) * peak
  }

  /** A plateau needs two levels; its estimate is the median of their rates. */
  function OnPlateau(none: Report, usable: map<int, real>, plateau: seq<int>): (r: Result<Report, Error>) {
    if |plateau| <= 1 then Ok(none)
    else
      var rates := RatesAt(plateau, usable);
      if rates.Err? then Err(rates.error)
      else Ok(none.(status := Reached, xMax := Some(Median(rates.value)), plateau := plateau))
  }

  function Baselines(usable: map<int, real>, comparison: seq<real>): (s: seq<real>) {
    (if 1 in usable then [usable[1]] else []) + comparison
  }

  /** `scaling_report`, without the per-level rows and host evidence. */
  function ReportOf(stats: seq<Level>, minSamples: int, comparison: seq<real>): (r: Result<Report, Error>) {
    var ordered := SortBy(stats, ByLevel());
    var usable := Usable(ordered, minSamples);
    if !AllPositive(comparison) then Err(BadBaseline)
    else Verdict(ordered, usable, Baselines(usable, comparison))
  }

  // ----- the backward loop

  function Reversed(s: seq<int>): (r: seq<int>)
    ensures |r| == |s|
  {
    if s == [] then [] else [s[|s| - 1]] + Reversed(s[..|s| - 1])
  }

  method WalkBack(ordered: seq<Level>, usable: map<int, real>, bound: real) returns (plateau: seq<int>)
    ensures plateau == Suffix(ordered, usable, bound)
  {
    plateau := [];
    var i := |ordered|;
    assert ordered[..i] == ordered;
    while i > 0
      invariant 0 <= i <= |ordered|
      invariant Suffix(ordered, usable, bound) == Suffix(ordered[..i], usable, bound) + Reversed(plateau)
    {
      var c := ordered[i - 1].concurrency;
      assert ordered[..i][..i - 1] == ordered[..i - 1];
      if RateOrZero(usable, c) < bound {
        return Reversed(plateau);
      }
      assert Reversed(plateau + [c]) == [c] + Reversed(plateau) by {
        assert (plateau + [c])[..|plateau|] == plateau;
      }
      plateau := plateau + [c];
      i := i - 1;
    }
    plateau := Reversed(plateau);
  }

  /** The decision of `scaling_report`, with its backward loop. */
  method Decide(ordered: seq<Level>, usable: map<int, real>, baselines: seq<real>) returns (r: Result<Report, Error>)
    requires Positive(usable) && AllPositive(baselines)
    ensures r == Verdict(ordered, usable, baselines)
  {
    var report := Inconclusive(ordered, usable, baselines);
    var tail := Tail(ordered, usable);
    if tail.None? || report.maxObserved.None? {
      return Ok(report);
    }
    var band, peak, previous, last := report.band, report.maxObserved.value, tail.value.0, tail.value.1;
    if TailDeclines(previous, last, peak, band) {
      return Ok(report.(status := Declined, xMax := Some(peak), declinePct := Some(100.0 * Change(peak, last))));
    }
    var plateau := [];
    if TailIsFlat(previous, last, band) {
      plateau := WalkBack(ordered, usable, Bound(band, peak));
    }
    r := OnPlateau(report, usable, plateau);
  }

  // ----- what the verdicts mean

  /** No usable rate is above the peak, and the peak level carries it. */
  lemma {:induction false} PeakIsGreatest(ordered: seq<Level>, usable: map<int, real>)
    ensures forall i :: 0 <= i < |ordered| && ordered[i].concurrency in usable ==>
              PeakLevel(ordered, usable).Some?
              && usable[ordered[i].concurrency] <= usable[PeakLevel(ordered, usable).value]
  {
    if ordered != [] {
      PeakIsGreatest(ordered[..|ordered| - 1], usable);
    }
  }

  /** The levels of the last `k` entries. */
  function LastLevels(ordered: seq<Level>, k: nat): (s: seq<int>)
    requires k <= |ordered|
  {
    seq(k, i requires 0 <= i < k => ordered[|ordered| - k + i].concurrency)
  }

  /** `k` trailing levels all have a rate of at least `bound`, and the level before them does not. */
  ghost predicate LongestRun(ordered: seq<Level>, usable: map<int, real>, bound: real, k: nat) {
    && k <= |ordered|
    && (forall i :: |ordered| - k <= i < |ordered| ==>
          ordered[i].concurrency in usable && usable[ordered[i].concurrency] >= bound)
    && (k < |ordered| ==> RateOrZero(usable, ordered[|ordered| - k - 1].concurrency) < bound)
  }

  lemma {:induction false} SuffixIsLongestRun(ordered: seq<Level>, usable: map<int, real>, bound: real)
    requires bound > 0.0
    ensures var s := Suffix(ordered, usable, bound);
            LongestRun(ordered, usable, bound, |s|) && s == LastLevels(ordered, |s|)
  {
    if ordered != [] {
      var n := |ordered| - 1;
      SuffixIsLongestRun(ordered[..n], usable, bound);
      assert forall i :: 0 <= i < n ==> ordered[..n][i] == ordered[i];
    }
  }

  /** There is only one longest run. */
  lemma LongestRunIsUnique(ordered: seq<Level>, usable: map<int, real>, bound: real, j: nat, k: nat)
    requires LongestRun(ordered, usable, bound, j) && LongestRun(ordered, usable, bound, k) && bound > 0.0
    ensures j == k
  {
  }

  lemma PositiveBound(band: real, peak: real)
    requires band < 1.0 && peak > 0.0
    ensures 0.0 < Bound(band, peak)
  {
  }

  lemma {:induction false} RatesOfRun(levels: seq<int>, usable: map<int, real>, low: real, high: real)
    requires forall i :: 0 <= i < |levels| ==> levels[i] in usable && low <= usable[levels[i]] <= high
    ensures RatesAt(levels, usable).Ok?
    ensures forall i :: 0 <= i < |levels| ==> low <= RatesAt(levels, usable).value[i] <= high
  {
    if levels != [] {
      RatesOfRun(levels[..|levels| - 1], usable, low, high);
    }
  }

  lemma MedianBetween(values: seq<real>, low: real, high: real)
    requires values != [] && forall i :: 0 <= i < |values| ==> low <= values[i] <= high
    ensures low <= Median(values) <= high
  {
    SortSorts(values);
    forall i | 0 <= i < |values|
      ensures low <= Sort(values)[i] <= high
    {
      assert Sort(values)[i] in multiset(Sort(values));
      assert Sort(values)[i] in values;
    }
  }

  /** The plateau step, given the trailing levels that keep to the bound. */
  lemma PlateauFacts(ordered: seq<Level>, usable: map<int, real>, none: Report, band: real, peak: real)
    requires Positive(usable) && band < 1.0 && peak > 0.0 && Peak(ordered, usable) == Some(peak)
    ensures var s := Suffix(ordered, usable, Bound(band, peak));
            && OnPlateau(none, usable, s).Ok?
            && (|s| >= 2 ==>
                  (var x := OnPlateau(none, usable, s).value.xMax; x.Some? && Bound(band, peak) <= x.value <= peak))
  {
    var s := Suffix(ordered, usable, Bound(band, peak));
    PositiveBound(band, peak);
    SuffixIsLongestRun(ordered, usable, Bound(band, peak));
    PeakIsGreatest(ordered, usable);
    RatesOfRun(s, usable, Bound(band, peak), peak);
    if |s| >= 2 {
      MedianBetween(RatesAt(s, usable).value, Bound(band, peak), peak);
    }
  }

  /** What "reached" asks of the curve. */
  ghost predicate HasPlateau(ordered: seq<Level>, usable: map<int, real>, band: real, k: nat)
    requires Positive(usable)
  {
    var tail, peak := Tail(ordered, usable), Peak(ordered, usable);
    && tail.Some? && peak.Some? && peak.value > 0.0
    && !TailDeclines(tail.value.0, tail.value.1, peak.value, band)
    && TailIsFlat(tail.value.0, tail.value.1, band)
    && k >= 2 && LongestRun(ordered, usable, Bound(band, peak.value), k)
  }

  /**
   * For a band below one: "reached" exactly when the last two levels are flat without a decline and a
   * run of at least two trailing levels keeps within the band of the peak; the plateau is then that
   * longest run, and the estimate lies within the band of the peak. No lookup fails.
   */
  lemma ReachedIff(ordered: seq<Level>, usable: map<int, real>, baselines: seq<real>)
    requires Positive(usable) && AllPositive(baselines) && Band(baselines) < 1.0
    ensures Verdict(ordered, usable, baselines).Ok?
    ensures var r := Verdict(ordered, usable, baselines).value;
            && (r.status == Reached <==> exists k :: HasPlateau(ordered, usable, r.band, k))
            && (r.status == Reached ==>
                  && HasPlateau(ordered, usable, r.band, |r.plateau|)
                  && r.plateau == LastLevels(ordered, |r.plateau|)
                  && r.maxObserved.Some? && r.xMax.Some?
                  && Bound(r.band, r.maxObserved.value) <= r.xMax.value <= r.maxObserved.value)
            && (r.status != Reached ==> r.plateau == [])
  {
    var none := Inconclusive(ordered, usable, baselines);
    var tail := Tail(ordered, usable);
    if tail.Some? && none.maxObserved.Some? {
      PlateauFacts(ordered, usable, none, none.band, none.maxObserved.value);
      PlateauBySuffix(ordered, usable, none.band);
    }
  }

  /** The trailing run the walk finds is the one that makes a plateau. */
  lemma PlateauBySuffix(ordered: seq<Level>, usable: map<int, real>, band: real)
    requires Positive(usable) && band < 1.0 && Tail(ordered, usable).Some? && Peak(ordered, usable).Some?
    ensures var tail, peak := Tail(ordered, usable).value, Peak(ordered, usable).value;
            var s := Suffix(ordered, usable, Bound(band, peak));
            && s == LastLevels(ordered, |s|)
            && ((exists k :: HasPlateau(ordered, usable, band, k)) <==>
                  !TailDeclines(tail.0, tail.1, peak, band) && TailIsFlat(tail.0, tail.1, band) && |s| >= 2)
            && (|s| >= 2 && !TailDeclines(tail.0, tail.1, peak, band) && TailIsFlat(tail.0, tail.1, band) ==>
                  HasPlateau(ordered, usable, band, |s|))
  {
    var peak := Peak(ordered, usable).value;
    var bound := Bound(band, peak);
    PositiveBound(band, peak);
    SuffixIsLongestRun(ordered, usable, bound);
    forall k | HasPlateau(ordered, usable, band, k)
      ensures k == |Suffix(ordered, usable, bound)|
    {
      LongestRunIsUnique(ordered, usable, bound, k, |Suffix(ordered, usable, bound)|);
    }
    var n, tail := |Suffix(ordered, usable, bound)|, Tail(ordered, usable).value;
    if n >= 2 && !TailDeclines(tail.0, tail.1, peak, band) && TailIsFlat(tail.0, tail.1, band) {
      assert peak > 0.0;
      assert HasPlateau(ordered, usable, band, n);
    }
  }

  lemma QuotientBelowOne(x: real, y: real)
    requires y > 0.0
    ensures x / y < 1.0 <==> x < y
    ensures x / y == 1.0 <==> x == y
  {
    var q := x / y;
    assert q * y == x;
    assert (q - 1.0) * y == x - y;
  }

  lemma DeclineIsReal(previous: real, last: real, peak: real, band: real)
    requires 0.0 < previous <= peak && 0.0 < last <= peak && band > 0.0
    requires TailDeclines(previous, last, peak, band)
    ensures last < peak && Change(peak, last) < 0.0
  {
    QuotientBelowOne(last, previous);
    QuotientBelowOne(last, peak);
  }

  /**
   * "Declined after peak": the peak is not the last level, the change to the last is negative and the
   * estimate is the peak.
   */
  lemma DeclinedMeans(ordered: seq<Level>, usable: map<int, real>, baselines: seq<real>)
    requires Positive(usable) && AllPositive(baselines)
    requires Verdict(ordered, usable, baselines).Ok? && Verdict(ordered, usable, baselines).value.status == Declined
    ensures var r := Verdict(ordered, usable, baselines).value;
            && |ordered| >= 2 && r.peakLevel.Some? && r.peakLevel.value != ordered[|ordered| - 1].concurrency
            && r.declinePct.Some? && r.declinePct.value < 0.0
            && r.xMax == r.maxObserved == Some(usable[r.peakLevel.value])
  {
    var n := |ordered|;
    PeakIsGreatest(ordered, usable);
    var tail := Tail(ordered, usable).value;
    DeclineIsReal(tail.0, tail.1, Peak(ordered, usable).value, Band(baselines));
  }

  // ----- changing the unit of throughput

  /** A change of unit for rates: order and ratios are what it was before. */
  ghost predicate KeepsOrder(g: real -> real) {
    g(0.0) == 0.0 && forall x, y :: g(x) < g(y) <==> x < y
  }

  function Quotient(x: real, y: real): (result: real) {
    if y == 0.0 then 0.0 else x / y
  }

  ghost predicate KeepsRatios(g: real -> real) {
    forall x, y :: Quotient(g(x), g(y)) == Quotient(x, y)
  }

  /** Shares of a rate and averages of two rates change unit with the rates. */
  ghost predicate KeepsShares(g: real -> real) {
    && (forall band, x :: Bound(band, g(x)) == g(Bound(band, x)))
    && (forall x, y :: Middle(g(x), g(y)) == g(Middle(x, y)))
  }

  function ScaleLevel(l: Level, g: real -> real): (level: Level) {
    l.(rate := ScaleOption(l.rate, g))
  }

  function ScaleLevels(s: seq<Level>, g: real -> real): (t: seq<Level>)
    ensures |t| == |s| && forall i :: 0 <= i < |s| ==> t[i] == ScaleLevel(s[i], g)
  {
    seq(|s|, i requires 0 <= i < |s| => ScaleLevel(s[i], g))
  }

  function ScaleReals(s: seq<real>, g: real -> real): (t: seq<real>)
    ensures |t| == |s| && forall i :: 0 <= i < |s| ==> t[i] == g(s[i])
  {
    seq(|s|, i requires 0 <= i < |s| => g(s[i]))
  }

  function ScaleMap(m: map<int, real>, g: real -> real): (result: map<int, real>) {
    map c | c in m :: g(m[c])
  }

  function ScaleOption(x: Option<real>, g: real -> real): (r: Option<real>) {
    if x.Some? then Some(g(x.value)) else None
  }

  function ScaleReport(r: Report, g: real -> real): (report: Report) {
    r.(maxObserved := ScaleOption(r.maxObserved, g), xMax := ScaleOption(r.xMax, g),
       baselines := ScaleReals(r.baselines, g))
  }

  function ScaleResult(r: Result<Report, Error>, g: real -> real): (result: Result<Report, Error>) {
    if r.Ok? then Ok(ScaleReport(r.value, g)) else r
  }

  lemma {:induction false} InsertScales(sorted: seq<Level>, l: Level, g: real -> real)
    ensures InsertBy(ScaleLevels(sorted, g), ScaleLevel(l, g), ByLevel())
         == ScaleLevels(InsertBy(sorted, l, ByLevel()), g)
  {
    if sorted != [] {
      var n := |sorted| - 1;
      InsertScales(sorted[..n], l, g);
      assert ScaleLevels(sorted, g)[..n] == ScaleLevels(sorted[..n], g);
    }
  }

  lemma {:induction false} SortScales(levels: seq<Level>, g: real -> real)
    ensures SortBy(ScaleLevels(levels, g), ByLevel()) == ScaleLevels(SortBy(levels, ByLevel()), g)
  {
    if levels != [] {
      var n := |levels| - 1;
      SortScales(levels[..n], g);
      assert ScaleLevels(levels, g)[..n] == ScaleLevels(levels[..n], g);
      InsertScales(SortBy(levels[..n], ByLevel()), levels[n], g);
    }
  }

  lemma {:induction false} MeasuredScales(ordered: seq<Level>, g: real -> real)
    ensures Measured(ScaleLevels(ordered, g)) == ScaleMap(Measured(ordered), g)
  {
    if ordered != [] {
      var n := |ordered| - 1;
      MeasuredScales(ordered[..n], g);
      assert ScaleLevels(ordered, g)[..n] == ScaleLevels(ordered[..n], g);
    }
  }

  lemma {:induction false} UsableScales(ordered: seq<Level>, measured: map<int, real>, minSamples: int, g: real -> real)
    requires KeepsOrder(g)
    ensures UsableOf(ScaleLevels(ordered, g), ScaleMap(measured, g), minSamples)
         == ScaleMap(UsableOf(ordered, measured, minSamples), g)
  {
    if ordered != [] {
      var n := |ordered| - 1;
      UsableScales(ordered[..n], measured, minSamples, g);
      assert ScaleLevels(ordered, g)[..n] == ScaleLevels(ordered[..n], g);
      if ordered[n].concurrency in measured {
        assert g(measured[ordered[n].concurrency]) > g(0.0) <==> measured[ordered[n].concurrency] > 0.0;
      }
    }
  }

  lemma {:induction false} PeakScales(ordered: seq<Level>, usable: map<int, real>, g: real -> real)
    requires KeepsOrder(g)
    ensures PeakLevel(ScaleLevels(ordered, g), ScaleMap(usable, g)) == PeakLevel(ordered, usable)
  {
    if ordered != [] {
      var n := |ordered| - 1;
      PeakScales(ordered[..n], usable, g);
      assert ScaleLevels(ordered, g)[..n] == ScaleLevels(ordered[..n], g);
    }
  }

  lemma {:induction false} ExtremesScale(s: seq<real>, g: real -> real)
    requires KeepsOrder(g) && s != []
    ensures Greatest(ScaleReals(s, g)) == g(Greatest(s)) && Least(ScaleReals(s, g)) == g(Least(s))
  {
    if |s| > 1 {
      ExtremesScale(s[1..], g);
      assert ScaleReals(s, g)[1..] == ScaleReals(s[1..], g);
    }
  }

  lemma PositiveKept(s: seq<real>, g: real -> real)
    requires KeepsOrder(g)
    ensures AllPositive(ScaleReals(s, g)) <==> AllPositive(s)
  {
    forall i | 0 <= i < |s|
      ensures ScaleReals(s, g)[i] > 0.0 <==> s[i] > 0.0
    {
      assert g(s[i]) > g(0.0) <==> s[i] > 0.0;
    }
    if AllPositive(ScaleReals(s, g)) {
      assert forall i :: 0 <= i < |s| ==> ScaleReals(s, g)[i] > 0.0;
    }
  }

  lemma BandKept(baselines: seq<real>, g: real -> real)
    requires KeepsOrder(g) && KeepsRatios(g) && AllPositive(baselines) && AllPositive(ScaleReals(baselines, g))
    ensures Band(ScaleReals(baselines, g)) == Band(baselines)
  {
    if |baselines| > 1 {
      ExtremesScale(baselines, g);
      LeastPositive(baselines);
      LeastPositive(ScaleReals(baselines, g));
      assert Quotient(g(Greatest(baselines)), g(Least(baselines))) == Quotient(Greatest(baselines), Least(baselines));
    }
  }

  lemma {:induction false} SuffixScales(ordered: seq<Level>, usable: map<int, real>, bound: real, g: real -> real)
    requires KeepsOrder(g)
    ensures Suffix(ScaleLevels(ordered, g), ScaleMap(usable, g), g(bound)) == Suffix(ordered, usable, bound)
  {
    if ordered != [] {
      var n := |ordered| - 1;
      SuffixScales(ordered[..n], usable, bound, g);
      assert ScaleLevels(ordered, g)[..n] == ScaleLevels(ordered[..n], g);
      var c := ordered[n].concurrency;
      assert RateOrZero(ScaleMap(usable, g), c) == g(RateOrZero(usable, c));
    }
  }

  lemma {:induction false} RatesScale(levels: seq<int>, usable: map<int, real>, g: real -> real)
    ensures RatesAt(levels, ScaleMap(usable, g))
         == if RatesAt(levels, usable).Ok? then Ok(ScaleReals(RatesAt(levels, usable).value, g))
            else RatesAt(levels, usable)
  {
    if levels != [] {
      var n := |levels| - 1;
      RatesScale(levels[..n], usable, g);
      if RatesAt(levels, usable).Ok? {
        var before := RatesAt(levels[..n], usable).value;
        assert ScaleReals(before + [usable[levels[n]]], g) == ScaleReals(before, g) + [g(usable[levels[n]])];
      }
    }
  }

  lemma {:induction false} InsertRealScales(s: seq<real>, x: real, g: real -> real)
    requires KeepsOrder(g)
    ensures Insert(ScaleReals(s, g), g(x)) == ScaleReals(Insert(s, x), g)
  {
    if s != [] {
      assert g(s[0]) < g(x) <==> s[0] < x;
      InsertRealScales(s[1..], x, g);
      assert ScaleReals(s, g)[1..] == ScaleReals(s[1..], g);
    }
  }

  lemma {:induction false} SortRealsScale(s: seq<real>, g: real -> real)
    requires KeepsOrder(g)
    ensures Sort(ScaleReals(s, g)) == ScaleReals(Sort(s), g)
  {
    if s != [] {
      var n := |s| - 1;
      SortRealsScale(s[..n], g);
      assert ScaleReals(s, g)[..n] == ScaleReals(s[..n], g);
      InsertRealScales(Sort(s[..n]), s[n], g);
    }
  }

  lemma MedianScales(s: seq<real>, g: real -> real)
    requires KeepsOrder(g) && KeepsShares(g) && s != []
    ensures Median(ScaleReals(s, g)) == g(Median(s))
  {
    SortSorts(s);
    SortSorts(ScaleReals(s, g));
    SortRealsScale(s, g);
  }

  lemma PlateauScales(none: Report, usable: map<int, real>, plateau: seq<int>, g: real -> real)
    requires KeepsOrder(g) && KeepsShares(g) && none.xMax.None?
    ensures OnPlateau(ScaleReport(none, g), ScaleMap(usable, g), plateau)
         == ScaleResult(OnPlateau(none, usable, plateau), g)
  {
    RatesScale(plateau, usable, g);
    if |plateau| > 1 && RatesAt(plateau, usable).Ok? {
      MedianScales(RatesAt(plateau, usable).value, g);
    }
  }

  lemma InconclusiveScales(ordered: seq<Level>, usable: map<int, real>, baselines: seq<real>, g: real -> real)
    requires KeepsOrder(g) && KeepsRatios(g) && AllPositive(baselines) && AllPositive(ScaleReals(baselines, g))
    ensures Inconclusive(ScaleLevels(ordered, g), ScaleMap(usable, g), ScaleReals(baselines, g))
         == ScaleReport(Inconclusive(ordered, usable, baselines), g)
  {
    PeakScales(ordered, usable, g);
    BandKept(baselines, g);
  }

  /** The comparisons behind a verdict only see ratios. */
  lemma TailKept(previous: real, last: real, peak: real, band: real, g: real -> real)
    requires KeepsOrder(g) && KeepsRatios(g) && previous > 0.0 && last > 0.0 && peak > 0.0
    ensures g(previous) > 0.0 && g(last) > 0.0 && g(peak) > 0.0
    ensures TailDeclines(g(previous), g(last), g(peak), band) == TailDeclines(previous, last, peak, band)
    ensures TailIsFlat(g(previous), g(last), band) == TailIsFlat(previous, last, band)
    ensures Change(g(peak), g(last)) == Change(peak, last)
  {
    assert g(previous) > g(0.0) && g(last) > g(0.0) && g(peak) > g(0.0);
    assert Quotient(g(last), g(previous)) == Quotient(last, previous);
    assert Quotient(g(last), g(peak)) == Quotient(last, peak);
    assert Quotient(g(previous), g(peak)) == Quotient(previous, peak);
  }

  lemma PositiveMap(usable: map<int, real>, g: real -> real)
    requires KeepsOrder(g) && Positive(usable)
    ensures Positive(ScaleMap(usable, g))
  {
    forall c | c in usable
      ensures g(usable[c]) > 0.0
    {
      assert g(usable[c]) > g(0.0);
    }
  }

  lemma TailScales(ordered: seq<Level>, usable: map<int, real>, g: real -> real)
    requires Positive(usable) && Positive(ScaleMap(usable, g))
    ensures var tail := Tail(ordered, usable);
            Tail(ScaleLevels(ordered, g), ScaleMap(usable, g))
            == if tail.Some? then Some((g(tail.value.0), g(tail.value.1))) else None
  {
  }

  lemma VerdictScales(ordered: seq<Level>, usable: map<int, real>, baselines: seq<real>, g: real -> real)
    requires KeepsOrder(g) && KeepsRatios(g) && KeepsShares(g) && Positive(usable) && Positive(ScaleMap(usable, g))
    requires AllPositive(baselines) && AllPositive(ScaleReals(baselines, g))
    ensures Verdict(ScaleLevels(ordered, g), ScaleMap(usable, g), ScaleReals(baselines, g))
         == ScaleResult(Verdict(ordered, usable, baselines), g)
  {
    var none := Inconclusive(ordered, usable, baselines);
    InconclusiveScales(ordered, usable, baselines, g);
    var tail := Tail(ordered, usable);
    TailScales(ordered, usable, g);
    if tail.Some? && none.maxObserved.Some? {
      SuffixScales(ordered, usable, Bound(none.band, none.maxObserved.value), g);
      JudgementScales(none, usable, tail.value.0, tail.value.1, none.maxObserved.value,
                      Suffix(ordered, usable, Bound(none.band, none.maxObserved.value)), g);
    }
  }

  lemma JudgementScales(none: Report, usable: map<int, real>, previous: real, last: real, peak: real,
                        run: seq<int>, g: real -> real)
    requires KeepsOrder(g) && KeepsRatios(g) && KeepsShares(g) && none.xMax.None?
    requires previous > 0.0 && last > 0.0 && peak > 0.0
    ensures g(previous) > 0.0 && g(peak) > 0.0
    ensures Judge(ScaleReport(none, g), ScaleMap(usable, g), g(previous), g(last), g(peak), run)
         == ScaleResult(Judge(none, usable, previous, last, peak, run), g)
  {
    TailKept(previous, last, peak, none.band, g);
    PlateauScales(none, usable, run, g);
    PlateauScales(none, usable, [], g);
  }

  function TimesBy(f: real): (result: real -> real) {
    (x: real) => x * f
  }

  lemma TimesByKeepsOrder(f: real)
    requires f > 0.0
    ensures KeepsOrder(TimesBy(f))
  {
    var g := TimesBy(f);
    forall x: real, y: real
      ensures g(x) < g(y) <==> x < y
    {
      OrderKept(x, y, f);
    }
  }

  lemma TimesByKeepsRatios(f: real)
    requires f > 0.0
    ensures KeepsRatios(TimesBy(f))
  {
    var g := TimesBy(f);
    forall x: real, y: real
      ensures Quotient(g(x), g(y)) == Quotient(x, y)
    {
      QuotientKept(x, y, f);
    }
  }

  lemma TimesByKeepsShares(f: real)
    ensures KeepsShares(TimesBy(f))
  {
    var g := TimesBy(f);
    forall x: real, y: real
      ensures Middle(g(x), g(y)) == g(Middle(x, y))
    {
      MiddleKept(x, y, f);
    }
    forall band: real, x: real
      ensures Bound(band, g(x)) == g(Bound(band, x))
    {
      BoundKept(band, x, f);
    }
  }

  lemma MiddleKept(x: real, y: real, f: real)
    ensures Middle(x * f, y * f) == Middle(x, y) * f
  {
    assert (x + y) * f == x * f + y * f;
    assert (x + y) / 2.0 * f == (x + y) * f / 2.0;
  }

  lemma BoundKept(band: real, x: real, f: real)
    ensures Bound(band, x * f) == Bound(band, x) * f
  {
    var a := 1.0 - band;
    assert a * (x * f) == a * x * f;
  }

  lemma OrderKept(x: real, y: real, f: real)
    requires f > 0.0
    ensures x * f < y * f <==> x < y
  {
    var d := y - x;
    assert d * f == y * f - x * f;
    if d > 0.0 {
      assert d * f > 0.0;
    } else {
      assert -d * f >= 0.0;
    }
  }

  lemma QuotientKept(x: real, y: real, f: real)
    requires f > 0.0
    ensures Quotient(x * f, y * f) == Quotient(x, y)
  {
    OrderKept(y, 0.0, f);
    OrderKept(0.0, y, f);
    if y != 0.0 {
      var q := x / y;
      assert q * y == x;
      assert q * (y * f) == x * f;
    }
  }

  /** Multiplying every rate and comparison rate by a positive factor keeps the verdict and scales the estimate. */
  lemma UnitsDoNotMatter(stats: seq<Level>, minSamples: int, comparison: seq<real>, f: real)
    requires f > 0.0
    ensures ReportOf(ScaleLevels(stats, TimesBy(f)), minSamples, ScaleReals(comparison, TimesBy(f)))
         == ScaleResult(ReportOf(stats, minSamples, comparison), TimesBy(f))
  {
    TimesByKeepsOrder(f);
    TimesByKeepsRatios(f);
    TimesByKeepsShares(f);
    ReportScales(stats, minSamples, comparison, TimesBy(f));
  }

  lemma ReportScales(stats: seq<Level>, minSamples: int, comparison: seq<real>, g: real -> real)
    requires KeepsOrder(g) && KeepsRatios(g) && KeepsShares(g)
    ensures ReportOf(ScaleLevels(stats, g), minSamples, ScaleReals(comparison, g))
         == ScaleResult(ReportOf(stats, minSamples, comparison), g)
  {
    var ordered := SortBy(stats, ByLevel());
    SortScales(stats, g);
    RatesScaled(ordered, minSamples, g);
    PositiveKept(comparison, g);
    if AllPositive(comparison) {
      BaselinesScale(Usable(ordered, minSamples), comparison, g);
      VerdictScales(ordered, Usable(ordered, minSamples), Baselines(Usable(ordered, minSamples), comparison), g);
    }
  }

  lemma RatesScaled(ordered: seq<Level>, minSamples: int, g: real -> real)
    requires KeepsOrder(g)
    ensures Usable(ScaleLevels(ordered, g), minSamples) == ScaleMap(Usable(ordered, minSamples), g)
    ensures Positive(ScaleMap(Usable(ordered, minSamples), g))
  {
    MeasuredScales(ordered, g);
    UsableScales(ordered, Measured(ordered), minSamples, g);
    PositiveMap(Usable(ordered, minSamples), g);
  }

  lemma BaselinesScale(usable: map<int, real>, comparison: seq<real>, g: real -> real)
    requires KeepsOrder(g) && Positive(usable) && AllPositive(comparison)
    ensures AllPositive(Baselines(usable, comparison)) && AllPositive(ScaleReals(Baselines(usable, comparison), g))
    ensures ScaleReals(Baselines(usable, comparison), g) == Baselines(ScaleMap(usable, g), ScaleReals(comparison, g))
  {
    PositiveKept(Baselines(usable, comparison), g);
  }
}
