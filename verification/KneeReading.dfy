/** kneepoint/analyze/knee.py: the published knee, read off the per-level statistics alone. */
module KneeReading {
  import opened Basics
  import opened Ordering
  import opened Knee

  // ----- the vocabulary: levels with enough samples, their least p95, doubling it

  /** The level has at least one and at least `minSamples` successes, and a p95. */
  predicate Enough(l: Level, minSamples: int) {
    && l.p95.Some?
    && match l.successfulN { case Some(n) => n >= 1 && n >= minSamples case None => false }
  }

  ghost predicate IsLeastP95(floor: real, stats: seq<Level>, minSamples: int) {
    && (exists l :: l in stats && Enough(l, minSamples) && l.p95.value == floor)
    && (forall l :: l in stats && Enough(l, minSamples) ==> floor <= l.p95.value)
  }

  /** The level's p95 is at least twice the least one, or the least one is zero. */
  predicate Doubles(l: Level, floor: real, minSamples: int) {
    Enough(l, minSamples) && (floor == 0.0 || l.p95.value / floor >= 2.0)
  }

  /** The level's p95 is within 15 % of twice the least one. */
  predicate NearlyDoubles(l: Level, floor: real, minSamples: int) {
    && Enough(l, minSamples) && floor != 0.0
    && 1.7 - 0.000000000001 <= l.p95.value / floor <= 2.3 + 0.000000000001
  }

  /** There are levels with enough samples on both sides of `c`. */
  ghost predicate Between(c: int, stats: seq<Level>, minSamples: int) {
    && (exists l :: l in stats && Enough(l, minSamples) && l.concurrency < c)
    && (exists l :: l in stats && Enough(l, minSamples) && c < l.concurrency)
  }

  /** Three levels with enough samples: one of them lies between two others. */
  ghost predicate ThreeLevels(stats: seq<Level>, minSamples: int) {
    exists l :: l in stats && Enough(l, minSamples) && Between(l.concurrency, stats, minSamples)
  }

  /** A level without enough samples lies strictly between two that have them. */
  ghost predicate Interrupted(stats: seq<Level>, minSamples: int) {
    exists l :: l in stats && !Enough(l, minSamples) && Between(l.concurrency, stats, minSamples)
  }

  /** A curve is drawn: three levels with enough samples and no gap between them. */
  ghost predicate Drawn(stats: seq<Level>, minSamples: int) {
    ThreeLevels(stats, minSamples) && !Interrupted(stats, minSamples)
  }

  ghost predicate IsHighest(c: int, stats: seq<Level>, minSamples: int) {
    && (exists l :: l in stats && Enough(l, minSamples) && l.concurrency == c)
    && (forall l :: l in stats && Enough(l, minSamples) ==> l.concurrency <= c)
  }

  /** The lowest level that doubles the least p95. */
  ghost predicate IsFirstDoubling(c: int, stats: seq<Level>, floor: real, minSamples: int) {
    && (exists l :: l in stats && l.concurrency == c && Doubles(l, floor, minSamples))
    && (forall l :: l in stats && Doubles(l, floor, minSamples) ==> c <= l.concurrency)
  }

  // ----- the curve in the same vocabulary

  /** The curve of `stats`: its levels with enough samples, ascending. */
  ghost predicate IsCurve(usable: seq<Level>, stats: seq<Level>, minSamples: int) {
    && (forall l :: l in usable <==> l in stats && Enough(l, minSamples))
    && forall i, j :: 0 <= i < j < |usable| ==> usable[i].concurrency < usable[j].concurrency
  }

  lemma UsableIsCurve(stats: seq<Level>, minSamples: int)
    requires Distinct(stats)
    ensures IsCurve(Usable(stats, minSamples), stats, minSamples)
  {
    UsableIsEligible(stats, minSamples);
    FilterDistinct(stats, IsEligible(minSamples));
    SortAscends(Filter(stats, IsEligible(minSamples)), ByLevel());
    var usable := Usable(stats, minSamples);
    forall i, j | 0 <= i < j < |usable|
      ensures usable[i].concurrency < usable[j].concurrency
    {
      assert ByLevel()(usable[i]) < ByLevel()(usable[j]);
    }
  }

  /** Between its first and its last level. */
  lemma BetweenEnds(c: int, stats: seq<Level>, minSamples: int, usable: seq<Level>)
    requires IsCurve(usable, stats, minSamples)
    ensures Between(c, stats, minSamples)
       <==> usable != [] && usable[0].concurrency < c < usable[|usable| - 1].concurrency
  {
    if usable != [] {
      assert usable[0] in usable && usable[|usable| - 1] in usable;
    }
    if Between(c, stats, minSamples) {
      var low :| low in stats && Enough(low, minSamples) && low.concurrency < c;
      var high :| high in stats && Enough(high, minSamples) && c < high.concurrency;
      assert low in usable && high in usable;
      var i :| 0 <= i < |usable| && usable[i] == low;
      var j :| 0 <= j < |usable| && usable[j] == high;
    }
  }

  lemma ThreeIff(stats: seq<Level>, minSamples: int, usable: seq<Level>)
    requires IsCurve(usable, stats, minSamples)
    ensures ThreeLevels(stats, minSamples) <==> |usable| >= 3
  {
    if |usable| >= 3 {
      assert usable[1] in usable;
      BetweenEnds(usable[1].concurrency, stats, minSamples, usable);
    }
    if ThreeLevels(stats, minSamples) {
      var l :| l in stats && Enough(l, minSamples) && Between(l.concurrency, stats, minSamples);
      BetweenEnds(l.concurrency, stats, minSamples, usable);
      assert l in usable;
      var i :| 0 <= i < |usable| && usable[i] == l;
    }
  }

  lemma GapIff(stats: seq<Level>, minSamples: int, usable: seq<Level>)
    requires IsCurve(usable, stats, minSamples)
    ensures HasGap(stats, usable, minSamples) <==> Interrupted(stats, minSamples)
  {
    if HasGap(stats, usable, minSamples) {
      var i :| 0 <= i < |stats| && !stats[i].Eligible(minSamples)
               && usable[0].concurrency < stats[i].concurrency < usable[|usable| - 1].concurrency;
      BetweenEnds(stats[i].concurrency, stats, minSamples, usable);
      assert stats[i] in stats && !Enough(stats[i], minSamples);
    }
    if Interrupted(stats, minSamples) {
      var l :| l in stats && !Enough(l, minSamples) && Between(l.concurrency, stats, minSamples);
      BetweenEnds(l.concurrency, stats, minSamples, usable);
      var i :| 0 <= i < |stats| && stats[i] == l;
      assert !stats[i].Eligible(minSamples);
    }
  }

  lemma DrawnIff(stats: seq<Level>, minSamples: int)
    requires Distinct(stats)
    ensures Drawn(stats, minSamples)
       <==> |Usable(stats, minSamples)| >= 3 && !HasGap(stats, Usable(stats, minSamples), minSamples)
  {
    UsableIsCurve(stats, minSamples);
    ThreeIff(stats, minSamples, Usable(stats, minSamples));
    GapIff(stats, minSamples, Usable(stats, minSamples));
  }

  lemma FloorIsLeastP95(usable: seq<Level>, stats: seq<Level>, minSamples: int)
    requires IsCurve(usable, stats, minSamples) && usable != []
    requires forall i :: 0 <= i < |usable| ==> usable[i].p95.Some?
    ensures IsLeastP95(Floor(usable), stats, minSamples)
  {
    FloorIsLeast(usable);
    var i :| 0 <= i < |usable| && usable[i].p95 == Some(Floor(usable));
    assert usable[i] in usable;
    forall l | l in stats && Enough(l, minSamples)
      ensures Floor(usable) <= l.p95.value
    {
      assert l in usable;
      var j :| 0 <= j < |usable| && usable[j] == l;
    }
  }

  // ----- the crossing

  /** A point of the curve is a level with enough samples, its p95 over the least one. */
  predicate IsPoint(r: LevelRatio, l: Level, floor: real, minSamples: int) {
    && Enough(l, minSamples) && r.concurrency == l.concurrency && r.p95 == l.p95.value
    && r.ratio == (if floor == 0.0 then Infinite else Times(l.p95.value / floor))
    && (r.near <==> NearlyDoubles(l, floor, minSamples))
  }

  /** The published ratios: one point for each level of the curve, in order. */
  ghost predicate ArePoints(ratios: seq<LevelRatio>, usable: seq<Level>, floor: real, minSamples: int) {
    |ratios| == |usable| && forall i :: 0 <= i < |ratios| ==> IsPoint(ratios[i], usable[i], floor, minSamples)
  }

  lemma RatiosArePoints(usable: seq<Level>, floor: real, minSamples: int)
    requires forall i :: 0 <= i < |usable| ==> Enough(usable[i], minSamples) && usable[i].p95.Some?
    ensures ArePoints(RatiosOver(usable, floor), usable, floor, minSamples)
  {
  }

  lemma PointCrosses(r: LevelRatio, l: Level, floor: real, minSamples: int)
    requires IsPoint(r, l, floor, minSamples)
    ensures Crosses(r.ratio) <==> Doubles(l, floor, minSamples)
  {
  }

  lemma CrossingDoubles(ratios: seq<LevelRatio>, usable: seq<Level>, stats: seq<Level>, floor: real, minSamples: int)
    requires IsCurve(usable, stats, minSamples) && ArePoints(ratios, usable, floor, minSamples)
    ensures Doubling(ratios).Some? <==> exists l :: l in stats && Doubles(l, floor, minSamples)
    ensures Doubling(ratios).Some? ==> IsFirstDoubling(Doubling(ratios).value, stats, floor, minSamples)
  {
    var k := FirstCrossing(Readings(ratios));
    if k < |ratios| {
      PointCrosses(ratios[k], usable[k], floor, minSamples);
      assert Crosses(Readings(ratios)[k]) && usable[k] in usable;
    }
    forall l | l in stats && Doubles(l, floor, minSamples)
      ensures k < |ratios| && ratios[k].concurrency <= l.concurrency
    {
      assert l in usable;
      var i :| 0 <= i < |usable| && usable[i] == l;
      PointCrosses(ratios[i], l, floor, minSamples);
      assert Crosses(Readings(ratios)[i]);
    }
  }

  lemma TopIsHighest(usable: seq<Level>, stats: seq<Level>, minSamples: int)
    requires IsCurve(usable, stats, minSamples) && usable != []
    ensures IsHighest(usable[|usable| - 1].concurrency, stats, minSamples)
  {
    var top := |usable| - 1;
    assert usable[top] in usable;
    forall l | l in stats && Enough(l, minSamples)
      ensures l.concurrency <= usable[top].concurrency
    {
      assert l in usable;
      var i :| 0 <= i < |usable| && usable[i] == l;
    }
  }

  // ----- the report

  /** The published ratios of these statistics. */
  ghost predicate IsReadingOf(ratios: seq<LevelRatio>, stats: seq<Level>, floor: real, minSamples: int) {
    exists usable :: IsCurve(usable, stats, minSamples) && ArePoints(ratios, usable, floor, minSamples)
  }

  /** `floor` is the least p95 of the levels with enough samples, if there are any. */
  ghost predicate FloorFits(floor: real, stats: seq<Level>, minSamples: int) {
    (exists l :: l in stats && Enough(l, minSamples)) ==> IsLeastP95(floor, stats, minSamples)
  }

  lemma LeastIsUnique(x: real, y: real, stats: seq<Level>, minSamples: int)
    requires IsLeastP95(x, stats, minSamples) && IsLeastP95(y, stats, minSamples)
    ensures x == y
  {
  }

  lemma RatiosRead(stats: seq<Level>, minSamples: int, floor: real)
    requires Distinct(stats) && FloorFits(floor, stats, minSamples)
    ensures forall i :: 0 <= i < |Usable(stats, minSamples)| ==> Usable(stats, minSamples)[i].p95.Some?
    ensures IsCurve(Usable(stats, minSamples), stats, minSamples)
    ensures ArePoints(Ratios(Usable(stats, minSamples)), Usable(stats, minSamples), floor, minSamples)
  {
    var usable := Usable(stats, minSamples);
    UsableIsCurve(stats, minSamples);
    UsableIsEligible(stats, minSamples);
    if usable != [] {
      assert usable[0] in usable;
      FloorIsLeastP95(usable, stats, minSamples);
      LeastIsUnique(floor, Floor(usable), stats, minSamples);
      RatiosArePoints(usable, floor, minSamples);
    }
  }

  lemma ReportShape(stats: seq<Level>, minSamples: int, answer: Option<int>)
    ensures var r, usable := KneeReport(stats, minSamples, answer), Usable(stats, minSamples);
            && (forall i :: 0 <= i < |usable| ==> usable[i].p95.Some?)
            && r.ratios == Ratios(usable) && r.minSamples == minSamples && r.usableLevels == |usable|
            && r.nearLevels == Filter(r.ratios, IsNear())
            && r.contaminated == LevelNumbers(Filter(stats, IsContaminated()))
            && r.doubling == r.knee
            && r.knee == (if |usable| < 3 || HasGap(stats, usable, minSamples) then None else Doubling(r.ratios))
            && r.kneedle == (if |usable| < 3 || HasGap(stats, usable, minSamples) then None
                             else if answer == Some(usable[|usable| - 1].concurrency) then None else answer)
            && r.agree == (if r.kneedle.Some? && r.knee.Some? then Some(r.kneedle == r.knee) else None)
            && (r.lowerBound <==> r.knee.Some? && usable != [] && r.knee.value == usable[|usable| - 1].concurrency)
            && (r.range.Some? <==> r.knee.Some?)
            && (r.knee.None? ==> r.confidence == if r.nearLevels != [] then Some(Low) else None)
            && (r.knee.Some? ==>
                  r.confidence == Some(if r.range.value.0 == r.range.value.1 && r.agree != Some(false)
                                          && !r.lowerBound && r.contaminated == [] then High else Low))
  {
    UsableIsEligible(stats, minSamples);
  }

  /**
   * The knee, for every set of per-level statistics: there is one exactly when a curve is drawn and some level
   * doubles the least p95. It is the lowest such level, and only a lower bound when it is the highest measured.
   */
  lemma KneeIsFirstDoubling(stats: seq<Level>, minSamples: int, answer: Option<int>, floor: real)
    requires Distinct(stats) && FloorFits(floor, stats, minSamples)
    ensures var r := KneeReport(stats, minSamples, answer);
            && (r.knee.Some? <==> Drawn(stats, minSamples) && exists l :: l in stats && Doubles(l, floor, minSamples))
            && (r.knee.Some? ==> IsFirstDoubling(r.knee.value, stats, floor, minSamples))
            && (r.lowerBound <==> r.knee.Some? && IsHighest(r.knee.value, stats, minSamples))
  {
    var usable := Usable(stats, minSamples);
    RatiosRead(stats, minSamples, floor);
    ReportShape(stats, minSamples, answer);
    DrawnIff(stats, minSamples);
    if Drawn(stats, minSamples) {
      CrossingDoubles(Ratios(usable), usable, stats, floor, minSamples);
      TopIsHighest(usable, stats, minSamples);
    }
  }

  /** The other verdicts: Kneedle's answer unless it is the highest level, and whether the two agree. */
  lemma VerdictsAre(stats: seq<Level>, minSamples: int, answer: Option<int>)
    requires Distinct(stats)
    ensures var r := KneeReport(stats, minSamples, answer);
            && r.minSamples == minSamples && r.doubling == r.knee
            && r.kneedle == (if Drawn(stats, minSamples) && answer.Some? && !IsHighest(answer.value, stats, minSamples)
                             then answer else None)
            && r.agree == (if r.kneedle.Some? && r.knee.Some? then Some(r.kneedle == r.knee) else None)
  {
    ReportShape(stats, minSamples, answer);
    DrawnIff(stats, minSamples);
    UsableIsCurve(stats, minSamples);
    if Drawn(stats, minSamples) && answer.Some? {
      TopIsOnlyHighest(Usable(stats, minSamples), stats, minSamples, answer.value);
    }
  }

  lemma TopIsOnlyHighest(usable: seq<Level>, stats: seq<Level>, minSamples: int, c: int)
    requires IsCurve(usable, stats, minSamples) && usable != []
    ensures IsHighest(c, stats, minSamples) <==> c == usable[|usable| - 1].concurrency
  {
    TopIsHighest(usable, stats, minSamples);
  }

  /** The curve as published, and the levels on it that a repetition could move across the threshold. */
  lemma RatiosAre(stats: seq<Level>, minSamples: int, answer: Option<int>, floor: real)
    requires Distinct(stats) && FloorFits(floor, stats, minSamples)
    ensures var r := KneeReport(stats, minSamples, answer);
            && IsReadingOf(r.ratios, stats, floor, minSamples) && r.usableLevels == |r.ratios|
            && (forall x :: x in r.nearLevels <==> x in r.ratios && x.near)
            && (r.nearLevels != [] <==> exists l :: l in stats && NearlyDoubles(l, floor, minSamples))
            && (r.contaminated == [] <==> forall l :: l in stats ==> !l.contaminated)
            && (forall c :: c in r.contaminated <==> exists l :: l in stats && l.contaminated && l.concurrency == c)
  {
    var r, usable := KneeReport(stats, minSamples, answer), Usable(stats, minSamples);
    RatiosRead(stats, minSamples, floor);
    ReportShape(stats, minSamples, answer);
    FilterMembers(r.ratios, IsNear());
    NearLevelsAre(r.ratios, usable, stats, floor, minSamples);
    ContaminatedAre(stats);
  }

  lemma NearLevelsAre(ratios: seq<LevelRatio>, usable: seq<Level>, stats: seq<Level>, floor: real, minSamples: int)
    requires IsCurve(usable, stats, minSamples) && ArePoints(ratios, usable, floor, minSamples)
    ensures Filter(ratios, IsNear()) != [] <==> exists l :: l in stats && NearlyDoubles(l, floor, minSamples)
  {
    FilterMembers(ratios, IsNear());
    var near := Filter(ratios, IsNear());
    if near != [] {
      assert near[0] in near;
      var i :| 0 <= i < |ratios| && ratios[i] == near[0];
      assert usable[i] in usable;
    }
    forall l | l in stats && NearlyDoubles(l, floor, minSamples)
      ensures near != []
    {
      assert l in usable;
      var i :| 0 <= i < |usable| && usable[i] == l;
      assert ratios[i] in ratios && IsPoint(ratios[i], l, floor, minSamples);
    }
  }

  lemma ContaminatedAre(stats: seq<Level>)
    ensures var cs := LevelNumbers(Filter(stats, IsContaminated()));
            && (cs == [] <==> forall l :: l in stats ==> !l.contaminated)
            && (forall c :: c in cs <==> exists l :: l in stats && l.contaminated && l.concurrency == c)
  {
    FilterMembers(stats, IsContaminated());
    var bad := Filter(stats, IsContaminated());
    var cs := LevelNumbers(bad);
    forall c | c in cs
      ensures exists l :: l in stats && l.contaminated && l.concurrency == c
    {
      var i :| 0 <= i < |cs| && cs[i] == c;
      assert bad[i] in bad;
    }
    forall l | l in stats && l.contaminated
      ensures l.concurrency in cs
    {
      assert l in bad;
      var i :| 0 <= i < |bad| && bad[i] == l;
      assert cs[i] == l.concurrency;
    }
  }

  // ----- the range and the confidence

  ghost predicate NearlyBelow(c: int, knee: int, stats: seq<Level>, floor: real, minSamples: int) {
    exists l :: l in stats && NearlyDoubles(l, floor, minSamples) && l.concurrency == c < knee
  }

  /** The knee, or the lowest level below it that a repetition could lift over the threshold. */
  ghost predicate IsLowEnd(low: int, knee: int, stats: seq<Level>, floor: real, minSamples: int) {
    && (low == knee || NearlyBelow(low, knee, stats, floor, minSamples))
    && (forall c :: NearlyBelow(c, knee, stats, floor, minSamples) ==> low <= c)
  }

  ghost predicate IsNextLevel(c: int, knee: int, stats: seq<Level>, minSamples: int) {
    && knee < c && (exists l :: l in stats && Enough(l, minSamples) && l.concurrency == c)
    && (forall l :: l in stats && Enough(l, minSamples) && knee < l.concurrency ==> c <= l.concurrency)
  }

  /** The knee barely doubled: a repetition could drop it below the threshold. */
  ghost predicate KneeIsNear(knee: int, stats: seq<Level>, floor: real, minSamples: int) {
    exists l :: l in stats && NearlyDoubles(l, floor, minSamples) && l.concurrency == knee
  }

  ghost predicate IsHighEnd(high: int, knee: int, stats: seq<Level>, floor: real, minSamples: int) {
    if KneeIsNear(knee, stats, floor, minSamples) && !IsHighest(knee, stats, minSamples) then
      IsNextLevel(high, knee, stats, minSamples)
    else high == knee
  }

  /** Positions and levels of the curve: nearness of a level is that of its point. */
  lemma NearAt(ratios: seq<LevelRatio>, usable: seq<Level>, stats: seq<Level>, floor: real, minSamples: int, i: nat)
    requires IsCurve(usable, stats, minSamples) && ArePoints(ratios, usable, floor, minSamples) && i < |ratios|
    ensures ratios[i].near <==> KneeIsNear(ratios[i].concurrency, stats, floor, minSamples)
  {
    assert IsPoint(ratios[i], usable[i], floor, minSamples) && usable[i] in usable;
    if KneeIsNear(ratios[i].concurrency, stats, floor, minSamples) {
      var l :| l in stats && NearlyDoubles(l, floor, minSamples) && l.concurrency == ratios[i].concurrency;
      assert l in usable;
      var j :| 0 <= j < |usable| && usable[j] == l;
    }
  }

  lemma NearlyBelowAt(ratios: seq<LevelRatio>, usable: seq<Level>, stats: seq<Level>, floor: real, minSamples: int,
                    k: nat, c: int)
    requires IsCurve(usable, stats, minSamples) && ArePoints(ratios, usable, floor, minSamples) && k < |ratios|
    ensures NearlyBelow(c, ratios[k].concurrency, stats, floor, minSamples)
       <==> exists i :: 0 <= i < k && ratios[i].near && ratios[i].concurrency == c
  {
    if i :| 0 <= i < k && ratios[i].near && ratios[i].concurrency == c {
      assert IsPoint(ratios[i], usable[i], floor, minSamples) && usable[i] in usable;
      assert usable[i].concurrency < usable[k].concurrency == ratios[k].concurrency;
    }
    if NearlyBelow(c, ratios[k].concurrency, stats, floor, minSamples) {
      var l :| l in stats && NearlyDoubles(l, floor, minSamples) && l.concurrency == c < ratios[k].concurrency;
      assert l in usable;
      var i :| 0 <= i < |usable| && usable[i] == l;
      assert IsPoint(ratios[i], usable[i], floor, minSamples) && IsPoint(ratios[k], usable[k], floor, minSamples);
    }
  }

  lemma LowEndAt(ratios: seq<LevelRatio>, usable: seq<Level>, stats: seq<Level>, floor: real, minSamples: int, k: nat)
    requires IsCurve(usable, stats, minSamples) && ArePoints(ratios, usable, floor, minSamples) && k < |ratios|
    ensures IsLowEnd(ratios[LowIndex(ratios, 0, k)].concurrency, ratios[k].concurrency, stats, floor, minSamples)
  {
    var m := LowIndex(ratios, 0, k);
    NearlyBelowAt(ratios, usable, stats, floor, minSamples, k, ratios[m].concurrency);
    forall c | NearlyBelow(c, ratios[k].concurrency, stats, floor, minSamples)
      ensures ratios[m].concurrency <= c
    {
      NearlyBelowAt(ratios, usable, stats, floor, minSamples, k, c);
      var i :| 0 <= i < k && ratios[i].near && ratios[i].concurrency == c;
      assert IsPoint(ratios[i], usable[i], floor, minSamples) && IsPoint(ratios[m], usable[m], floor, minSamples);
    }
  }

  lemma NextLevelAt(ratios: seq<LevelRatio>, usable: seq<Level>, stats: seq<Level>, floor: real, minSamples: int,
                    k: nat)
    requires IsCurve(usable, stats, minSamples) && ArePoints(ratios, usable, floor, minSamples) && k + 1 < |ratios|
    ensures IsNextLevel(ratios[k + 1].concurrency, ratios[k].concurrency, stats, minSamples)
  {
    assert IsPoint(ratios[k], usable[k], floor, minSamples) && IsPoint(ratios[k + 1], usable[k + 1], floor, minSamples);
    assert usable[k + 1] in usable;
    forall l | l in stats && Enough(l, minSamples) && ratios[k].concurrency < l.concurrency
      ensures ratios[k + 1].concurrency <= l.concurrency
    {
      assert l in usable;
      var i :| 0 <= i < |usable| && usable[i] == l;
    }
  }

  lemma HighEndAt(ratios: seq<LevelRatio>, usable: seq<Level>, stats: seq<Level>, floor: real, minSamples: int, k: nat)
    requires IsCurve(usable, stats, minSamples) && ArePoints(ratios, usable, floor, minSamples) && k < |ratios|
    ensures IsHighEnd(ratios[HighIndex(ratios, k)].concurrency, ratios[k].concurrency, stats, floor, minSamples)
    ensures IsHighest(ratios[k].concurrency, stats, minSamples) <==> k == |ratios| - 1
  {
    TopIsHighest(usable, stats, minSamples);
    NearAt(ratios, usable, stats, floor, minSamples, k);
    assert IsPoint(ratios[k], usable[k], floor, minSamples);
    if k + 1 < |ratios| {
      NextLevelAt(ratios, usable, stats, floor, minSamples, k);
      assert usable[k + 1] in usable;
    }
  }

  /** The range of the knee: from its low end to its high end. */
  lemma RangeIs(stats: seq<Level>, minSamples: int, answer: Option<int>, floor: real)
    requires Distinct(stats) && FloorFits(floor, stats, minSamples)
    ensures var r := KneeReport(stats, minSamples, answer);
            && (r.range.Some? <==> r.knee.Some?)
            && (r.range.Some? ==>
                  && IsLowEnd(r.range.value.0, r.knee.value, stats, floor, minSamples)
                  && IsHighEnd(r.range.value.1, r.knee.value, stats, floor, minSamples))
  {
    var r := KneeReport(stats, minSamples, answer);
    ReportShape(stats, minSamples, answer);
    if r.range.Some? {
      RatiosRead(stats, minSamples, floor);
      var k := ReportIsPlaced(stats, minSamples, answer);
      LowEndAt(r.ratios, Usable(stats, minSamples), stats, floor, minSamples, k);
      HighEndAt(r.ratios, Usable(stats, minSamples), stats, floor, minSamples, k);
    }
  }

  /** Nothing casts doubt on the knee: not the highest level, no level near the threshold, no dispute, no taint. */
  ghost predicate Undoubted(r: Report, stats: seq<Level>, floor: real, minSamples: int) {
    && r.knee.Some? && !IsHighest(r.knee.value, stats, minSamples)
    && !KneeIsNear(r.knee.value, stats, floor, minSamples)
    && (forall c :: !NearlyBelow(c, r.knee.value, stats, floor, minSamples))
    && !(r.kneedle.Some? && r.kneedle != r.knee)
    && (forall l :: l in stats ==> !l.contaminated)
  }

  lemma SinglePoint(low: int, high: int, knee: int, stats: seq<Level>, floor: real, minSamples: int)
    requires IsLowEnd(low, knee, stats, floor, minSamples) && IsHighEnd(high, knee, stats, floor, minSamples)
    requires !IsHighest(knee, stats, minSamples)
    ensures low == high <==> !KneeIsNear(knee, stats, floor, minSamples)
                             && forall c :: !NearlyBelow(c, knee, stats, floor, minSamples)
  {
    if low == high {
      assert low == knee;
      forall c
        ensures !NearlyBelow(c, knee, stats, floor, minSamples)
      {
      }
    }
  }

  lemma DoubtIff(r: Report, stats: seq<Level>, floor: real, minSamples: int)
    requires r.knee.Some? && r.range.Some?
    requires IsLowEnd(r.range.value.0, r.knee.value, stats, floor, minSamples)
    requires IsHighEnd(r.range.value.1, r.knee.value, stats, floor, minSamples)
    requires r.lowerBound <==> IsHighest(r.knee.value, stats, minSamples)
    requires r.agree == if r.kneedle.Some? then Some(r.kneedle == r.knee) else None
    requires r.contaminated == [] <==> forall l :: l in stats ==> !l.contaminated
    ensures (r.range.value.0 == r.range.value.1 && r.agree != Some(false) && !r.lowerBound && r.contaminated == [])
       <==> Undoubted(r, stats, floor, minSamples)
  {
    if !r.lowerBound {
      SinglePoint(r.range.value.0, r.range.value.1, r.knee.value, stats, floor, minSamples);
    }
  }

  /** The confidence: high for an undoubted knee, low for any other; without a knee low when some level came near. */
  lemma ConfidenceIs(stats: seq<Level>, minSamples: int, answer: Option<int>, floor: real)
    requires Distinct(stats) && FloorFits(floor, stats, minSamples)
    ensures var r := KneeReport(stats, minSamples, answer);
            r.confidence == if r.knee.Some? then Some(if Undoubted(r, stats, floor, minSamples) then High else Low)
                            else if exists l :: l in stats && NearlyDoubles(l, floor, minSamples) then Some(Low)
                            else None
  {
    var r := KneeReport(stats, minSamples, answer);
    ReportShape(stats, minSamples, answer);
    RatiosAre(stats, minSamples, answer, floor);
    if r.knee.Some? {
      RangeIs(stats, minSamples, answer, floor);
      KneeIsFirstDoubling(stats, minSamples, answer, floor);
      DoubtIff(r, stats, floor, minSamples);
    }
  }

  /** `find_knee` answers with the low end of that range. */
  lemma FindKneeIsLowEnd(stats: seq<Level>, minSamples: int, answer: Option<int>, floor: real)
    requires Distinct(stats) && FloorFits(floor, stats, minSamples)
    ensures var r, found := KneeReport(stats, minSamples, answer), FindKnee(stats, minSamples, answer);
            && (found.Some? <==> r.knee.Some?)
            && (found.Some? ==> IsLowEnd(found.value, r.knee.value, stats, floor, minSamples))
  {
    RangeIs(stats, minSamples, answer, floor);
  }
}
