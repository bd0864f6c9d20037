/**
 * kneepoint/analyze/knee.py: the p95-doubling knee, its range and its confidence. Kneedle is any answer.
 */
module Knee {
  import opened Basics
  import opened Ordering

  const KNEE_RATIO := 2.0
  const CONFIDENCE_BAND := 0.15
  const ROUNDING := 0.000000000001

  /** One level of the curve; a legacy summary may not know its success count. */
  datatype Level = Level(concurrency: int, successfulN: Option<nat>, p95: Option<real>, contaminated: bool)
  {
    predicate Eligible(minSamples: int) {
      successfulN.Some? && successfulN.value > 0 && successfulN.value >= minSamples && p95.Some?
    }
  }

  function IsEligible(minSamples: int): (p: Level -> bool) {
    (l: Level) => l.Eligible(minSamples)
  }

  /** A latency over the curve's floor; over a floor of zero it is infinite. */
  datatype Ratio = Times(value: real) | Infinite

  predicate Crosses(r: Ratio) {
    r.Infinite? || r.value >= KNEE_RATIO
  }

  predicate Near(r: Ratio) {
    r.Times? && KNEE_RATIO * (1.0 - CONFIDENCE_BAND) - ROUNDING <= r.value
             <= KNEE_RATIO * (1.0 + CONFIDENCE_BAND) + ROUNDING
  }

  datatype LevelRatio = LevelRatio(concurrency: int, p95: real, ratio: Ratio, near: bool)

  datatype Confidence = High | Low

  datatype Report = Report(
    minSamples: int,
    usableLevels: nat,
    kneedle: Option<int>,
    doubling: Option<int>,
    agree: Option<bool>,
    knee: Option<int>,
    range: Option<(int, int)>,
    confidence: Option<Confidence>,
    lowerBound: bool,
    ratios: seq<LevelRatio>,
    nearLevels: seq<LevelRatio>,
    contaminated: seq<int>)

  // ----- the curve

  function ByLevel(): (f: Level -> int) {
    (l: Level) => l.concurrency
  }

  function Usable(stats: seq<Level>, minSamples: int): (s: seq<Level>) {
    SortBy(Filter(stats, IsEligible(minSamples)), ByLevel())
  }

  function Floor(usable: seq<Level>): (x: real)
    requires usable != [] && forall i :: 0 <= i < |usable| ==> usable[i].p95.Some?
  {
    var last := usable[|usable| - 1].p95.value;
    if |usable| == 1 then last else MinReal(Floor(usable[..|usable| - 1]), last)
  }

  function RatioOver(p95: real, floor: real): (ratio: Ratio) {
    if floor == 0.0 then Infinite else Times(p95 / floor)
  }

  function RatiosOver(usable: seq<Level>, floor: real): (rs: seq<LevelRatio>)
    requires forall i :: 0 <= i < |usable| ==> usable[i].p95.Some?
    ensures |rs| == |usable|
    ensures forall i :: 0 <= i < |rs| ==>
              && rs[i].concurrency == usable[i].concurrency && rs[i].p95 == usable[i].p95.value
              && rs[i].ratio == RatioOver(usable[i].p95.value, floor) && rs[i].near == Near(rs[i].ratio)
  {
    if usable == [] then []
    else
      var n := |usable| - 1;
      var ratio := RatioOver(usable[n].p95.value, floor);
      RatiosOver(usable[..n], floor) + [LevelRatio(usable[n].concurrency, usable[n].p95.value, ratio, Near(ratio))]
  }

  function Ratios(usable: seq<Level>): (rs: seq<LevelRatio>)
    requires forall i :: 0 <= i < |usable| ==> usable[i].p95.Some?
    ensures |rs| == |usable|
  {
    if usable == [] then [] else RatiosOver(usable, Floor(usable))
  }

  function Readings(ratios: seq<LevelRatio>): (rs: seq<Ratio>)
    ensures |rs| == |ratios| && forall i :: 0 <= i < |rs| ==> rs[i] == ratios[i].ratio
  {
    seq(|ratios|, i requires 0 <= i < |ratios| => ratios[i].ratio)
  }

  // ----- the first crossing

  /** Where the readings first reach the threshold at or after `i`; their number when they never do. */
  function FirstFrom(rs: seq<Ratio>, i: nat): (k: nat)
    requires i <= |rs|
    ensures i <= k <= |rs|
    ensures k < |rs| ==> Crosses(rs[k])
    ensures forall j :: i <= j < k ==> !Crosses(rs[j])
    decreases |rs| - i
  {
    if i == |rs| then i else if Crosses(rs[i]) then i else FirstFrom(rs, i + 1)
  }

  function FirstCrossing(rs: seq<Ratio>): (k: nat)
    ensures k <= |rs|
    ensures k < |rs| ==> Crosses(rs[k])
    ensures forall j :: 0 <= j < k ==> !Crosses(rs[j])
  {
    FirstFrom(rs, 0)
  }

  function Doubling(ratios: seq<LevelRatio>): (r: Option<int>) {
    var k := FirstCrossing(Readings(ratios));
    if k < |ratios| then Some(ratios[k].concurrency) else None
  }

  // ----- the range

  function IsNear(): (p: LevelRatio -> bool) {
    (r: LevelRatio) => r.near
  }

  function NearBelow(knee: int): (p: LevelRatio -> bool) {
    (r: LevelRatio) => r.near && r.concurrency < knee
  }

  function Above(knee: int): (p: LevelRatio -> bool) {
    (r: LevelRatio) => r.concurrency > knee
  }

  function At(knee: int): (p: LevelRatio -> bool) {
    (r: LevelRatio) => r.concurrency == knee
  }

  function Levels(ratios: seq<LevelRatio>): (cs: seq<int>)
    ensures |cs| == |ratios| && forall i :: 0 <= i < |cs| ==> cs[i] == ratios[i].concurrency
  {
    seq(|ratios|, i requires 0 <= i < |ratios| => ratios[i].concurrency)
  }

  /** The level after the knee, when the knee barely crossed. */
  function NextIfNear(ratios: seq<LevelRatio>, knee: int): (s: seq<int>) {
    var crossing := Filter(ratios, At(knee));
    var later := Filter(ratios, Above(knee));
    if crossing != [] && crossing[0].near && later != [] then [later[0].concurrency] else []
  }

  function Candidates(ratios: seq<LevelRatio>, knee: int): (cs: seq<int>)
    ensures cs != []
  {
    [knee] + Levels(Filter(ratios, NearBelow(knee))) + NextIfNear(ratios, knee)
  }

  function MinOf(s: seq<int>): (m: int)
    requires s != []
    ensures m in s && forall x :: x in s ==> m <= x
  {
    if |s| == 1 then s[0]
    else
      assert s == [s[0]] + s[1..];
      var m := MinOf(s[1..]); if s[0] < m then s[0] else m
  }

  function MaxOf(s: seq<int>): (m: int)
    requires s != []
    ensures m in s && forall x :: x in s ==> x <= m
  {
    if |s| == 1 then s[0]
    else
      assert s == [s[0]] + s[1..];
      var m := MaxOf(s[1..]); if s[0] > m then s[0] else m
  }

  // ----- the report

  function IsContaminated(): (p: Level -> bool) {
    (l: Level) => l.contaminated
  }

  function LevelNumbers(levels: seq<Level>): (cs: seq<int>)
    ensures |cs| == |levels|
  {
    seq(|levels|, i requires 0 <= i < |levels| => levels[i].concurrency)
  }

  /** A level too thin to use between two usable ones: no curve is drawn across it. */
  predicate HasGap(stats: seq<Level>, usable: seq<Level>, minSamples: int) {
    usable != []
    && exists i :: 0 <= i < |stats| && !stats[i].Eligible(minSamples)
                   && usable[0].concurrency < stats[i].concurrency < usable[|usable| - 1].concurrency
  }

  /** Kneedle's answer, refused when it is the top of the ramp. */
  function Kneedle(answer: Option<int>, ratios: seq<LevelRatio>): (r: Option<int>) {
    if answer.Some? && ratios != [] && answer.value == ratios[|ratios| - 1].concurrency then None else answer
  }

  /** The report of a curve with enough levels and no gap. */
  function CurveReport(minSamples: int, ratios: seq<LevelRatio>, answer: Option<int>, contaminated: seq<int>)
    : (report: Report)
    requires ratios != []
  {
    var near := Filter(ratios, IsNear());
    var kneedle := Kneedle(answer, ratios);
    var doubling := Doubling(ratios);
    var agree := if kneedle.Some? && doubling.Some? then Some(kneedle == doubling) else None;
    if doubling.None? then
      Report(minSamples, |ratios|, kneedle, doubling, agree, None, None, LowIfAny(near), false,
             ratios, near, contaminated)
    else
      var knee := doubling.value;
      var candidates := Candidates(ratios, knee);
      var low, high := MinOf(candidates), MaxOf(candidates);
      var lowerBound := knee == ratios[|ratios| - 1].concurrency;
      var firm := low == high && agree != Some(false) && !lowerBound && contaminated == [];
      Report(minSamples, |ratios|, kneedle, doubling, agree, Some(knee), Some((low, high)),
             Some(if firm then High else Low), lowerBound, ratios, near, contaminated)
  }

  /** Without a knee the only signal left is a level near the threshold. */
  function LowIfAny(near: seq<LevelRatio>): (r: Option<Confidence>) {
    if near != [] then Some(Low) else None
  }

  /** `knee_report`; `answer` is what Kneedle's locator said about this curve. */
  function KneeReport(stats: seq<Level>, minSamples: int, answer: Option<int>): (report: Report) {
    var usable := Usable(stats, minSamples);
    UsableIsEligible(stats, minSamples);
    var contaminated := LevelNumbers(Filter(stats, IsContaminated()));
    var ratios := Ratios(usable);
    if |usable| < 3 || HasGap(stats, usable, minSamples) then
      var near := Filter(ratios, IsNear());
      Report(minSamples, |usable|, None, None, None, None, None, LowIfAny(near), false, ratios, near, contaminated)
    else
      CurveReport(minSamples, ratios, answer, contaminated)
  }

  /** `find_knee`: the low end of the range, or nothing. */
  function FindKnee(stats: seq<Level>, minSamples: int, answer: Option<int>): (r: Option<int>) {
    var range := KneeReport(stats, minSamples, answer).range;
    if range.Some? then Some(range.value.0) else None
  }

  // ----- the curve is sorted

  lemma UsableIsEligible(stats: seq<Level>, minSamples: int)
    ensures forall x :: x in Usable(stats, minSamples) <==> x in stats && x.Eligible(minSamples)
    ensures forall i :: 0 <= i < |Usable(stats, minSamples)| ==>
              Usable(stats, minSamples)[i].Eligible(minSamples) && Usable(stats, minSamples)[i].p95.Some?
  {
    FilterMembers(stats, IsEligible(minSamples));
    SortKeeps(Filter(stats, IsEligible(minSamples)), ByLevel());
    forall i | 0 <= i < |Usable(stats, minSamples)|
      ensures Usable(stats, minSamples)[i].Eligible(minSamples)
    {
      assert Usable(stats, minSamples)[i] in Usable(stats, minSamples);
    }
  }

  /** One row per level, as the per-level statistics always are. */
  ghost predicate Distinct(stats: seq<Level>) {
    DistinctKeys(stats, ByLevel())
  }

  ghost predicate Rising(ratios: seq<LevelRatio>) {
    forall i, j :: 0 <= i < j < |ratios| ==> ratios[i].concurrency < ratios[j].concurrency
  }

  lemma {:induction false} FilterDistinct(levels: seq<Level>, p: Level -> bool)
    requires Distinct(levels)
    ensures Distinct(Filter(levels, p))
  {
    if levels != [] {
      var n := |levels| - 1;
      FilterDistinct(levels[..n], p);
      FilterMembers(levels[..n], p);
      var t := Filter(levels[..n], p);
      forall i | 0 <= i < |t|
        ensures t[i].concurrency != levels[n].concurrency
      {
        assert t[i] in t;
      }
    }
  }

  lemma RatiosRise(stats: seq<Level>, minSamples: int, answer: Option<int>)
    requires Distinct(stats)
    ensures Rising(KneeReport(stats, minSamples, answer).ratios)
    ensures forall i :: 0 <= i < |KneeReport(stats, minSamples, answer).ratios| ==>
              (var r := KneeReport(stats, minSamples, answer).ratios[i]; r.near == Near(r.ratio))
  {
    FilterDistinct(stats, IsEligible(minSamples));
    SortAscends(Filter(stats, IsEligible(minSamples)), ByLevel());
    UsableIsEligible(stats, minSamples);
  }

  // ----- re-readings of the curve

  /** Another run of the same curve: only a level within the band of the threshold may change side. */
  ghost predicate Rereading(other: seq<Ratio>, ratios: seq<LevelRatio>) {
    && |other| == |ratios|
    && forall i :: 0 <= i < |ratios| ==> !ratios[i].near ==> (Crosses(other[i]) <==> Crosses(ratios[i].ratio))
  }

  /** The first near level below `k`, else `k`: where the crossing can move down to. */
  ghost function LowIndex(ratios: seq<LevelRatio>, i: nat, k: nat): (m: nat)
    requires i <= k < |ratios|
    ensures i <= m <= k
    ensures m < k ==> ratios[m].near
    ensures forall j :: i <= j < m ==> !ratios[j].near
    decreases k - i
  {
    if i == k then k else if ratios[i].near then i else LowIndex(ratios, i + 1, k)
  }

  lemma NearBelowLevels(ratios: seq<LevelRatio>, knee: int, c: int)
    ensures c in Levels(Filter(ratios, NearBelow(knee)))
       <==> exists i :: 0 <= i < |ratios| && ratios[i].near && ratios[i].concurrency == c < knee
  {
    FilterMembers(ratios, NearBelow(knee));
    var f := Filter(ratios, NearBelow(knee));
    if c in Levels(f) {
      var i :| 0 <= i < |f| && Levels(f)[i] == c;
      assert f[i] in f;
      assert f[i] in ratios;
    }
    if i :| 0 <= i < |ratios| && ratios[i].near && ratios[i].concurrency == c < knee {
      assert ratios[i] in ratios && NearBelow(knee)(ratios[i]);
      assert ratios[i] in f;
      var j :| 0 <= j < |f| && f[j] == ratios[i];
      assert Levels(f)[j] == c;
    }
  }

  /** A filter that keeps nothing of `before`, and all or nothing of `x` and of `after`. */
  lemma FilterAround<T>(before: seq<T>, x: T, after: seq<T>, p: T -> bool)
    requires forall y :: y in before ==> !p(y)
    ensures (forall y :: y in after ==> p(y)) && !p(x) ==> Filter(before + [x] + after, p) == after
    ensures (forall y :: y in after ==> !p(y)) && p(x) ==> Filter(before + [x] + after, p) == [x]
  {
    FilterConcat(before + [x], after, p);
    FilterSnoc(before, x, p);
    FilterAllOrNone(before, p);
    FilterAllOrNone(after, p);
  }

  lemma SidesOf(ratios: seq<LevelRatio>, k: nat)
    requires Rising(ratios) && k < |ratios|
    ensures forall y :: y in ratios[..k] ==> y.concurrency < ratios[k].concurrency
    ensures forall y :: y in ratios[k + 1..] ==> y.concurrency > ratios[k].concurrency
  {
    forall y | y in ratios[k + 1..]
      ensures y.concurrency > ratios[k].concurrency
    {
      var i :| 0 <= i < |ratios[k + 1..]| && ratios[k + 1..][i] == y;
      assert ratios[k + 1 + i] == y;
    }
  }

  lemma FilterSides(before: seq<LevelRatio>, x: LevelRatio, after: seq<LevelRatio>)
    requires forall y :: y in before ==> y.concurrency < x.concurrency
    requires forall y :: y in after ==> y.concurrency > x.concurrency
    ensures Filter(before + [x] + after, Above(x.concurrency)) == after
    ensures Filter(before + [x] + after, At(x.concurrency)) == [x]
  {
    FilterAround(before, x, after, Above(x.concurrency));
    FilterAround(before, x, after, At(x.concurrency));
  }

  lemma {:induction false} FirstAbove(ratios: seq<LevelRatio>, k: nat)
    requires Rising(ratios) && k < |ratios|
    ensures Filter(ratios, Above(ratios[k].concurrency)) == ratios[k + 1..]
    ensures Filter(ratios, At(ratios[k].concurrency)) == [ratios[k]]
  {
    SidesOf(ratios, k);
    FilterSides(ratios[..k], ratios[k], ratios[k + 1..]);
    assert ratios == ratios[..k] + [ratios[k]] + ratios[k + 1..];
  }

  /** The range in terms of positions on the curve. */
  lemma RangeByPosition(ratios: seq<LevelRatio>, k: nat)
    requires Rising(ratios) && k < |ratios|
    ensures var c := Candidates(ratios, ratios[k].concurrency);
            && MinOf(c) == ratios[LowIndex(ratios, 0, k)].concurrency
            && MaxOf(c) == ratios[HighIndex(ratios, k)].concurrency
  {
    var knee := ratios[k].concurrency;
    var c := Candidates(ratios, knee);
    var m := LowIndex(ratios, 0, k);
    FirstAbove(ratios, k);
    var top := HighIndex(ratios, k);
    CandidateMembers(ratios, k);
    assert ratios[m].concurrency in c;
    assert ratios[top].concurrency in c;
    forall x | x in c
      ensures ratios[m].concurrency <= x <= ratios[top].concurrency
    {
    }
  }

  lemma CandidateMembers(ratios: seq<LevelRatio>, k: nat)
    requires Rising(ratios) && k < |ratios|
    ensures forall x :: x in Candidates(ratios, ratios[k].concurrency) <==>
              exists i :: 0 <= i < |ratios| && ratios[i].concurrency == x
                       && (i == k || (i < k && ratios[i].near) || (i == k + 1 && ratios[k].near))
  {
    var knee := ratios[k].concurrency;
    FirstAbove(ratios, k);
    forall x: int
      ensures x in Candidates(ratios, knee) <==>
              exists i :: 0 <= i < |ratios| && ratios[i].concurrency == x
                       && (i == k || (i < k && ratios[i].near) || (i == k + 1 && ratios[k].near))
    {
      NearBelowLevels(ratios, knee, x);
    }
  }

  // ----- what the report says about re-runs

  /** Where a re-reading of the curve first crosses the threshold. */
  ghost function CrossingLevel(other: seq<Ratio>, ratios: seq<LevelRatio>): (r: Option<int>)
    requires |other| == |ratios|
  {
    var k := FirstCrossing(other);
    if k < |ratios| then Some(ratios[k].concurrency) else None
  }

  ghost predicate InRange(c: Option<int>, range: (int, int)) {
    c.None? || range.0 <= c.value <= range.1
  }

  /** The report's knee and range sit at these positions of its curve. */
  ghost predicate Placed(r: Report, k: nat) {
    && Rising(r.ratios) && k == FirstCrossing(Readings(r.ratios)) < |r.ratios|
    && (forall i :: 0 <= i < |r.ratios| ==> r.ratios[i].near == Near(r.ratios[i].ratio))
    && r.knee == Some(r.ratios[k].concurrency)
    && r.range == Some((r.ratios[LowIndex(r.ratios, 0, k)].concurrency, r.ratios[HighIndex(r.ratios, k)].concurrency))
  }

  ghost function HighIndex(ratios: seq<LevelRatio>, k: nat): (h: nat)
    requires k < |ratios|
    ensures k <= h < |ratios|
  {
    if ratios[k].near && k + 1 < |ratios| then k + 1 else k
  }

  lemma ReportIsPlaced(stats: seq<Level>, minSamples: int, answer: Option<int>) returns (k: nat)
    requires Distinct(stats) && KneeReport(stats, minSamples, answer).range.Some?
    ensures Placed(KneeReport(stats, minSamples, answer), k)
  {
    var r := KneeReport(stats, minSamples, answer);
    RatiosRise(stats, minSamples, answer);
    k := FirstCrossing(Readings(r.ratios));
    RangeByPosition(r.ratios, k);
  }

  /** No re-reading first crosses below `low`, and some re-reading first crosses exactly there. */
  ghost predicate LowestCrossing(low: int, ratios: seq<LevelRatio>) {
    && (forall other :: Rereading(other, ratios) && CrossingLevel(other, ratios).Some? ==>
          low <= CrossingLevel(other, ratios).value)
    && (exists other :: Rereading(other, ratios) && CrossingLevel(other, ratios) == Some(low))
  }

  /** The low end of the range is exact. */
  lemma LowEndIsExact(stats: seq<Level>, minSamples: int, answer: Option<int>)
    requires Distinct(stats) && KneeReport(stats, minSamples, answer).range.Some?
    ensures var r := KneeReport(stats, minSamples, answer); LowestCrossing(r.range.value.0, r.ratios)
  {
    var k := ReportIsPlaced(stats, minSamples, answer);
    LowIndexIsLowest(KneeReport(stats, minSamples, answer), k);
  }

  lemma LowIndexIsLowest(r: Report, k: nat)
    requires Placed(r, k)
    ensures LowestCrossing(r.range.value.0, r.ratios)
  {
    var m := LowIndex(r.ratios, 0, k);
    forall other | Rereading(other, r.ratios) && CrossingLevel(other, r.ratios).Some?
      ensures r.range.value.0 <= CrossingLevel(other, r.ratios).value
    {
      NotBelow(r.ratios, k, other);
    }
    var lowest := Readings(r.ratios)[m := Times(KNEE_RATIO)];
    forall j | 0 <= j < m
      ensures !Crosses(lowest[j])
    {
      assert lowest[j] == Readings(r.ratios)[j];
    }
    FirstIs(lowest, m);
    assert Rereading(lowest, r.ratios) by {
      assert Crosses(Readings(r.ratios)[k]);
    }
  }

  lemma FirstIs(rs: seq<Ratio>, k: nat)
    requires k < |rs| && Crosses(rs[k]) && forall j :: 0 <= j < k ==> !Crosses(rs[j])
    ensures FirstCrossing(rs) == k
  {
    assert Crosses(rs[k]);
  }

  lemma NotBelow(ratios: seq<LevelRatio>, k: nat, other: seq<Ratio>)
    requires k == FirstCrossing(Readings(ratios)) < |ratios| && Rereading(other, ratios)
    ensures FirstCrossing(other) >= LowIndex(ratios, 0, k)
  {
    forall j | 0 <= j < LowIndex(ratios, 0, k)
      ensures !Crosses(other[j])
    {
      assert !ratios[j].near && !Crosses(Readings(ratios)[j]);
    }
  }

  /** When the deciding ratio is outside the band every re-reading crosses, and inside the range. */
  lemma FirmKneeStaysInRange(stats: seq<Level>, minSamples: int, answer: Option<int>, other: seq<Ratio>)
    requires Distinct(stats) && KneeReport(stats, minSamples, answer).range.Some?
    requires KneeIsFirm(KneeReport(stats, minSamples, answer))
    requires Rereading(other, KneeReport(stats, minSamples, answer).ratios)
    ensures CrossesInRange(other, KneeReport(stats, minSamples, answer))
  {
    var k := ReportIsPlaced(stats, minSamples, answer);
    FirmKnee(KneeReport(stats, minSamples, answer), k, other);
  }

  ghost predicate KneeIsFirm(r: Report) {
    forall i :: 0 <= i < |r.ratios| && Some(r.ratios[i].concurrency) == r.knee ==> !r.ratios[i].near
  }

  ghost predicate CrossesInRange(other: seq<Ratio>, r: Report) {
    && |other| == |r.ratios| && r.range.Some?
    && CrossingLevel(other, r.ratios).Some? && InRange(CrossingLevel(other, r.ratios), r.range.value)
  }

  lemma FirmKnee(r: Report, k: nat, other: seq<Ratio>)
    requires Placed(r, k) && KneeIsFirm(r) && Rereading(other, r.ratios)
    ensures CrossesInRange(other, r)
  {
    NotBelow(r.ratios, k, other);
    assert Crosses(Readings(r.ratios)[k]) && Crosses(other[k]);
  }

  /** Firmly at or past the threshold; firmly short of it. */
  predicate FirmAbove(r: LevelRatio) {
    !r.near && Crosses(r.ratio)
  }

  predicate FirmBelow(r: LevelRatio) {
    !r.near && !Crosses(r.ratio)
  }

  /**
   * When the range really holds every level the crossing could be: the knee itself is firm, or the
   * level after it is firmly past the threshold, or nothing beyond that one can cross.
   */
  ghost predicate RangeIsComplete(ratios: seq<LevelRatio>) {
    var k := FirstCrossing(Readings(ratios));
    || k == |ratios|
    || !ratios[k].near
    || (k + 1 < |ratios| && FirmAbove(ratios[k + 1]))
    || (forall j :: k + 1 < j < |ratios| ==> FirmBelow(ratios[j]))
  }

  ghost predicate HoldsEveryCrossing(r: Report) {
    && r.range.Some?
    && forall other :: Rereading(other, r.ratios) ==> InRange(CrossingLevel(other, r.ratios), r.range.value)
  }

  /** The range holds the crossing of every re-reading exactly when `RangeIsComplete`. */
  lemma RangeHoldsEveryCrossingIff(stats: seq<Level>, minSamples: int, answer: Option<int>)
    requires Distinct(stats) && KneeReport(stats, minSamples, answer).range.Some?
    ensures HoldsEveryCrossing(KneeReport(stats, minSamples, answer))
       <==> RangeIsComplete(KneeReport(stats, minSamples, answer).ratios)
  {
    var k := ReportIsPlaced(stats, minSamples, answer);
    PlacedRangeHolds(KneeReport(stats, minSamples, answer), k);
  }

  lemma PlacedRangeHolds(r: Report, k: nat)
    requires Placed(r, k)
    ensures HoldsEveryCrossing(r) <==> RangeIsComplete(r.ratios)
  {
    if RangeIsComplete(r.ratios) {
      forall other | Rereading(other, r.ratios)
        ensures InRange(CrossingLevel(other, r.ratios), r.range.value)
      {
        NotBelow(r.ratios, k, other);
        CompleteRangeHolds(r.ratios, k, other);
      }
    } else {
      var other := EscapingReading(r.ratios, k);
      assert !InRange(CrossingLevel(other, r.ratios), r.range.value);
    }
  }

  lemma CompleteRangeHolds(ratios: seq<LevelRatio>, k: nat, other: seq<Ratio>)
    requires k == FirstCrossing(Readings(ratios)) < |ratios| && RangeIsComplete(ratios) && Rereading(other, ratios)
    ensures FirstCrossing(other) == |ratios| || FirstCrossing(other) <= HighIndex(ratios, k)
  {
    assert Crosses(Readings(ratios)[k]);
    if !ratios[k].near {
      assert Crosses(other[k]);
    } else if k + 1 < |ratios| && FirmAbove(ratios[k + 1]) {
      assert Crosses(other[k + 1]);
    } else {
      forall j | k + 1 < j < |ratios|
        ensures !Crosses(other[j])
      {
        assert FirmBelow(ratios[j]);
      }
    }
  }

  /** A re-reading that crosses past the range: every near level up to the escape drops below. */
  lemma EscapingReading(ratios: seq<LevelRatio>, k: nat) returns (other: seq<Ratio>)
    requires k == FirstCrossing(Readings(ratios)) < |ratios| && !RangeIsComplete(ratios)
    ensures Rereading(other, ratios)
    ensures k + 1 < FirstCrossing(other) < |ratios|
  {
    var e :| k + 1 < e < |ratios| && !FirmBelow(ratios[e]);
    other := seq(|ratios|, i requires 0 <= i < |ratios| =>
      if !ratios[i].near then ratios[i].ratio else if i <= k + 1 then Times(1.0) else Times(KNEE_RATIO));
    assert Crosses(other[e]);
    forall j | 0 <= j <= k + 1
      ensures !Crosses(other[j])
    {
      assert j < k ==> !Crosses(Readings(ratios)[j]);
    }
  }

  /** A re-reading of the curve that first crosses outside the reported range. */
  ghost predicate RangeMisses(stats: seq<Level>, minSamples: int, answer: Option<int>, other: seq<Ratio>) {
    var r := KneeReport(stats, minSamples, answer);
    && Distinct(stats) && r.range.Some? && Rereading(other, r.ratios)
    && !InRange(CrossingLevel(other, r.ratios), r.range.value)
  }

  /** Four levels with p95 of 100, 210, 210 and 210 ms. */
  function Example(): (s: seq<Level>) {
    [Level(1, Some(10), Some(100.0), false), Level(2, Some(10), Some(210.0), false),
     Level(3, Some(10), Some(210.0), false), Level(4, Some(10), Some(210.0), false)]
  }

  function ExampleRatios(): (s: seq<LevelRatio>) {
    [LevelRatio(1, 100.0, Times(1.0), false), LevelRatio(2, 210.0, Times(2.1), true),
     LevelRatio(3, 210.0, Times(2.1), true), LevelRatio(4, 210.0, Times(2.1), true)]
  }

  /** The example reads as 2-3, yet a re-run can first cross at 4. */
  lemma RangeCanMissTheCrossing()
    ensures RangeMisses(Example(), 10, None, [Times(1.0), Times(1.9), Times(1.9), Times(2.1)])
  {
    ExampleMisses(Example(), 10, None, [Times(1.0), Times(1.9), Times(1.9), Times(2.1)]);
  }

  lemma ExampleMisses(stats: seq<Level>, minSamples: int, answer: Option<int>, other: seq<Ratio>)
    requires stats == Example() && minSamples == 10 && answer.None?
    requires other == [Times(1.0), Times(1.9), Times(1.9), Times(2.1)]
    ensures RangeMisses(stats, minSamples, answer, other)
  {
    ExampleReads(stats, minSamples, answer);
    RatiosMiss(stats, minSamples, answer, other);
  }

  lemma ExampleReads(stats: seq<Level>, minSamples: int, answer: Option<int>)
    requires stats == Example() && minSamples == 10 && answer.None?
    ensures Distinct(stats) && KneeReport(stats, minSamples, answer).range.Some?
    ensures KneeReport(stats, minSamples, answer).ratios == ExampleRatios()
  {
    ExampleReport();
  }

  lemma RatiosMiss(stats: seq<Level>, minSamples: int, answer: Option<int>, other: seq<Ratio>)
    requires Distinct(stats) && KneeReport(stats, minSamples, answer).range.Some?
    requires KneeReport(stats, minSamples, answer).ratios == ExampleRatios()
    requires other == [Times(1.0), Times(1.9), Times(1.9), Times(2.1)]
    ensures RangeMisses(stats, minSamples, answer, other)
  {
    var k := ReportIsPlaced(stats, minSamples, answer);
    ExampleEscapes(KneeReport(stats, minSamples, answer), k, other);
  }

  lemma ExampleEscapes(r: Report, k: nat, other: seq<Ratio>)
    requires Placed(r, k) && r.ratios == ExampleRatios()
    requires other == [Times(1.0), Times(1.9), Times(1.9), Times(2.1)]
    ensures Rereading(other, r.ratios) && !InRange(CrossingLevel(other, r.ratios), r.range.value)
  {
    FirstIs(Readings(r.ratios), 1);
    FirstIs(other, 3);
  }

  lemma ExampleReport()
    ensures KneeReport(Example(), 10, None).ratios == ExampleRatios() && KneeReport(Example(), 10, None).range.Some?
  {
    ExampleUsable();
    ExampleCurve();
    FirstIs(Readings(ExampleRatios()), 1);
    assert CurveReport(10, ExampleRatios(), None, LevelNumbers(Filter(Example(), IsContaminated()))).range.Some?;
  }

  lemma ExampleUsable()
    ensures Usable(Example(), 10) == Example()
    ensures !HasGap(Example(), Example(), 10)
  {
    AllUsable(Example(), 10);
  }

  /** A well-sampled increasing list is its own curve. */
  lemma AllUsable(stats: seq<Level>, minSamples: int)
    requires forall i :: 0 <= i < |stats| ==> stats[i].Eligible(minSamples)
    requires Ascends(stats, ByLevel())
    ensures Usable(stats, minSamples) == stats && !HasGap(stats, stats, minSamples)
  {
    FilterAllOrNone(stats, IsEligible(minSamples));
    AscendingStays(stats, ByLevel());
  }

  lemma ExampleCurve()
    ensures Ratios(Example()) == ExampleRatios()
  {
    assert Example()[0].p95 == Some(100.0);
    FloorOf(Example(), 100.0);
    assert RatioOver(100.0, 100.0) == Times(1.0) && RatioOver(210.0, 100.0) == Times(2.1);
    var rs := RatiosOver(Example(), 100.0);
    assert rs[0] == ExampleRatios()[0];
    assert rs[1] == ExampleRatios()[1];
    assert rs[2] == ExampleRatios()[2];
    assert rs[3] == ExampleRatios()[3];
  }

  /** The floor is the curve's least p95. */
  lemma FloorOf(usable: seq<Level>, floor: real)
    requires usable != [] && forall i :: 0 <= i < |usable| ==> usable[i].p95.Some?
    requires (exists i :: 0 <= i < |usable| && usable[i].p95 == Some(floor))
    requires (forall i :: 0 <= i < |usable| ==> floor <= usable[i].p95.value)
    ensures Floor(usable) == floor
  {
    FloorIsLeast(usable);
  }

  lemma {:induction false} FloorIsLeast(usable: seq<Level>)
    requires usable != [] && forall i :: 0 <= i < |usable| ==> usable[i].p95.Some?
    ensures exists i :: 0 <= i < |usable| && usable[i].p95 == Some(Floor(usable))
    ensures forall i :: 0 <= i < |usable| ==> Floor(usable) <= usable[i].p95.value
  {
    var n := |usable| - 1;
    if n == 0 {
      assert usable[0].p95 == Some(Floor(usable));
    } else {
      FloorIsLeast(usable[..n]);
      var i :| 0 <= i < n && usable[..n][i].p95 == Some(Floor(usable[..n]));
      assert usable[i].p95 == Some(Floor(usable[..n]));
      assert usable[n].p95 == Some(usable[n].p95.value);
    }
  }

  // ----- confidence

  predicate AboveBand(r: Ratio) {
    r.Infinite? || r.value > 2.3 + 0.000000000001
  }

  predicate BelowBand(r: Ratio) {
    r.Times? && r.value < 1.7 - 0.000000000001
  }

  /** Everything a "high" needs of the curve and of Kneedle's answer about it. */
  ghost predicate SharpCurve(ratios: seq<LevelRatio>, answer: Option<int>)
    requires ratios != []
  {
    var k := FirstCrossing(Readings(ratios));
    && k < |ratios| - 1
    && AboveBand(ratios[k].ratio) && (forall j :: 0 <= j < k ==> BelowBand(ratios[j].ratio))
    && (answer.None? || answer.value == ratios[k].concurrency || answer.value == ratios[|ratios| - 1].concurrency)
  }

  /** Everything a "high" needs. */
  ghost predicate Unquestioned(stats: seq<Level>, minSamples: int, answer: Option<int>, ratios: seq<LevelRatio>) {
    && |ratios| >= 3 && !HasGap(stats, Usable(stats, minSamples), minSamples)
    && SharpCurve(ratios, answer)
    && (forall i :: 0 <= i < |stats| ==> !stats[i].contaminated)
  }

  /**
   * High confidence, exactly when: at least three usable levels with no gap between them, a first
   * crossing that is not the last usable level and lies past the band, everything below it short of
   * the band, Kneedle silent (or refused) or in agreement, and nothing contaminated.
   */
  lemma HighConfidenceIff(stats: seq<Level>, minSamples: int, answer: Option<int>)
    requires Distinct(stats)
    ensures KneeReport(stats, minSamples, answer).confidence == Some(High)
       <==> Unquestioned(stats, minSamples, answer, KneeReport(stats, minSamples, answer).ratios)
  {
    RatiosRise(stats, minSamples, answer);
    CleanStats(stats);
    var r := KneeReport(stats, minSamples, answer);
    var usable, contaminated := Usable(stats, minSamples), LevelNumbers(Filter(stats, IsContaminated()));
    ReportByGap(stats, minSamples, answer);
    if |usable| >= 3 && !HasGap(stats, usable, minSamples) {
      SharpByBranch(minSamples, r.ratios, answer, contaminated);
    }
  }

  lemma ReportByGap(stats: seq<Level>, minSamples: int, answer: Option<int>)
    ensures var r, usable := KneeReport(stats, minSamples, answer), Usable(stats, minSamples);
            && |r.ratios| == |usable|
            && if |usable| >= 3 && !HasGap(stats, usable, minSamples) then
                 r == CurveReport(minSamples, r.ratios, answer, LevelNumbers(Filter(stats, IsContaminated())))
               else r.confidence != Some(High)
  {
    UsableIsEligible(stats, minSamples);
  }

  lemma SharpByBranch(minSamples: int, ratios: seq<LevelRatio>, answer: Option<int>, contaminated: seq<int>)
    requires ratios != [] && Rising(ratios) && forall i :: 0 <= i < |ratios| ==> ratios[i].near == Near(ratios[i].ratio)
    ensures CurveReport(minSamples, ratios, answer, contaminated).confidence == Some(High)
       <==> SharpCurve(ratios, answer) && contaminated == []
  {
    HighByBranch(minSamples, ratios, answer, contaminated);
    if FirstCrossing(Readings(ratios)) < |ratios| {
      SinglePointRange(ratios, FirstCrossing(Readings(ratios)));
    }
  }

  /** The branches of the report that lead to a "high". */
  lemma HighByBranch(minSamples: int, ratios: seq<LevelRatio>, answer: Option<int>, contaminated: seq<int>)
    requires ratios != []
    ensures var k := FirstCrossing(Readings(ratios));
            CurveReport(minSamples, ratios, answer, contaminated).confidence == Some(High) <==>
              && k < |ratios|
              && SingleCandidate(ratios, ratios[k].concurrency)
              && ratios[k].concurrency != ratios[|ratios| - 1].concurrency
              && (answer.None? || answer.value == ratios[k].concurrency
                  || answer.value == ratios[|ratios| - 1].concurrency)
              && contaminated == []
  {
  }

  predicate SingleCandidate(ratios: seq<LevelRatio>, knee: int) {
    MinOf(Candidates(ratios, knee)) == MaxOf(Candidates(ratios, knee))
  }

  lemma CleanStats(stats: seq<Level>)
    ensures LevelNumbers(Filter(stats, IsContaminated())) == [] <==>
            forall i :: 0 <= i < |stats| ==> !stats[i].contaminated
  {
    FilterMembers(stats, IsContaminated());
    var f := Filter(stats, IsContaminated());
    if f != [] {
      assert f[0] in f;
    }
    forall i | 0 <= i < |stats| && stats[i].contaminated
      ensures f != []
    {
      assert stats[i] in stats && IsContaminated()(stats[i]);
    }
  }

  /** The range is one level exactly when the crossing cannot move either way. */
  lemma SinglePointRange(ratios: seq<LevelRatio>, k: nat)
    requires Rising(ratios) && k == FirstCrossing(Readings(ratios)) < |ratios|
    requires forall i :: 0 <= i < |ratios| ==> ratios[i].near == Near(ratios[i].ratio)
    ensures k + 1 < |ratios| ==>
              (SingleCandidate(ratios, ratios[k].concurrency)
               <==> AboveBand(ratios[k].ratio) && forall j :: 0 <= j < k ==> BelowBand(ratios[j].ratio))
  {
    var m := LowIndex(ratios, 0, k);
    RangeByPosition(ratios, k);
    assert forall j :: 0 <= j < k ==> !Crosses(Readings(ratios)[j]);
    assert Crosses(Readings(ratios)[k]);
    if m < k {
      assert !BelowBand(ratios[m].ratio);
    }
  }

  /** `find_knee` answers exactly when there is a range, with the lowest level the crossing can fall on. */
  lemma FindKneeIsLowestCrossing(stats: seq<Level>, minSamples: int, answer: Option<int>)
    requires Distinct(stats)
    ensures FindKnee(stats, minSamples, answer).Some? <==> KneeReport(stats, minSamples, answer).knee.Some?
    ensures FindKnee(stats, minSamples, answer).Some? ==>
              LowestCrossing(FindKnee(stats, minSamples, answer).value, KneeReport(stats, minSamples, answer).ratios)
  {
    if KneeReport(stats, minSamples, answer).range.Some? {
      LowEndIsExact(stats, minSamples, answer);
    }
  }
}
