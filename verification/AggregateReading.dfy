/** kneepoint/analyze/knee.py: the published row of a level, read off the run's records alone. */
module AggregateReading {
  import opened Basics
  import opened Records
  import opened Grouping
  import opened Ordering
  import opened Percentile
  import opened Timing
  import A = Aggregate

  // ----- the samples of a level

  /** The values that the answered rows report, in order. */
  function Samples(rows: seq<RequestRecord>, f: RequestRecord -> Option<real>): (values: seq<real>)
    ensures |values| <= |rows|
  {
    if rows == [] then []
    else
      var r, before := rows[|rows| - 1], Samples(rows[..|rows| - 1], f);
      match f(r)
      case Some(value) => if r.ok then before + [value] else before
      case None => before
  }

  /** Latency, time to first content, mean and tail gap between chunks. */
  function Latency(): (f: RequestRecord -> Option<real>) { (r: RequestRecord) => Some(r.totalMs) }
  function FirstContent(): (f: RequestRecord -> Option<real>) { (r: RequestRecord) => r.ttftMs }
  function MeanGap(): (f: RequestRecord -> Option<real>) { (r: RequestRecord) => r.itlMeanMs }
  function TailGap(): (f: RequestRecord -> Option<real>) { (r: RequestRecord) => r.itlP99Ms }

  /** Decode time over output tokens: with content, at least one token reported and a positive decode time. */
  function PerToken(): (f: RequestRecord -> Option<real>) {
    (r: RequestRecord) =>
      match (r.ttftMs, r.outputTokens)
      case (Some(first), Some(tokens)) =>
        if tokens != 0 && r.totalMs > first then Some((r.totalMs - first) / tokens as real) else None
      case _ => None
  }

  /** Percentile `p` of the samples, on the straight line between neighbours in ascending order; none without any. */
  ghost predicate IsPercentile(x: Option<real>, samples: seq<real>, p: nat) {
    if samples == [] then x.None?
    else x.Some? && forall ascending :: multiset(ascending) == multiset(samples) && IsSorted(ascending) ==>
           IsCut(x.value, ascending, p)
  }

  ghost predicate IsSorted(s: seq<real>) {
    forall i, j :: 0 <= i <= j < |s| ==> s[i] <= s[j]
  }

  predicate IsCut(x: real, s: seq<real>, p: nat) {
    if |s| == 1 then x == s[0]
    else
      var m := |s| - 1;
      var j, delta := p * m / 100, p * m % 100;
      0 <= j < m && 100.0 * x == s[j] * (100 - delta) as real + s[j + 1] * delta as real
  }

  lemma PctIsPercentile(samples: seq<real>, p: nat)
    requires 1 <= p <= 99
    ensures IsPercentile(PctOpt(samples, p), samples, p)
  {
    if samples != [] {
      forall ascending | multiset(ascending) == multiset(samples) && IsSorted(ascending)
        ensures IsCut(Pct(samples, p), ascending, p)
      {
        PctIs(samples, p, ascending);
      }
    }
  }

  lemma {:induction false} ReportedAreSamples(rows: seq<RequestRecord>, f: RequestRecord -> Option<real>,
                                              g: RequestRecord -> Option<real>)
    requires forall r :: f(r) == g(r)
    ensures A.Reported(rows, f) == Samples(rows, g)
  {
    if rows != [] {
      ReportedAreSamples(rows[..|rows| - 1], f, g);
    }
  }

  lemma {:induction false} FailuresAreTheRest(rows: seq<RequestRecord>, failed: RequestRecord -> bool)
    requires forall r :: failed(r) <==> !r.ok
    ensures Count(rows, failed) == |rows| - Count(rows, IsOk())
  {
    if rows != [] {
      FailuresAreTheRest(rows[..|rows| - 1], failed);
    }
  }

  // ----- a row

  /** How metadata reads as analysis parameters; without any the caller's own apply. */
  function ParametersOf(p: Params, meta: Option<A.Meta>): (params: Params) {
    match meta
    case None => p
    case Some(m) =>
      var think := match (m.thinkMinMs, m.thinkMaxMs) {
        case (Some(least), Some(most)) => Some((least, most))
        case _ => None
      };
      Params(Some(m.hold), think, match m.levelStarts { case Some(starts) => starts case None => map[] }, m.levelStatus)
  }

  /** Some level up to `c` abandoned a request or shows a clock anomaly. */
  ghost predicate TaintedUpTo(records: seq<RequestRecord>, c: int, params: Params) {
    exists r :: r in records && r.concurrency <= c
                && (r.abandoned || TimingOf(records, r.concurrency, params).clockAnomaly)
  }

  function InjectorAt(meta: Option<A.Meta>, c: int): (injector: Option<A.Injector>) {
    match meta
    case None => None
    case Some(m) =>
      match m.injectors
      case None => None
      case Some(levels) => if c in levels then Some(levels[c]) else None
  }

  function Failed(): (p: RequestRecord -> bool) {
    (r: RequestRecord) => !r.ok
  }

  ghost predicate CountFields(row: A.LevelStats, rows: seq<RequestRecord>, c: int) {
    && row.concurrency == c && row.rows == rows && row.n == |rows|
    && row.successfulN == Count(rows, IsOk()) && row.abandoned == Count(rows, IsAbandoned())
    && (rows != [] ==> row.errorRate == Count(rows, Failed()) as real / |rows| as real)
  }

  /** The latency percentiles are over answered requests only, each over those that report the field. */
  ghost predicate PercentileFields(row: A.LevelStats, rows: seq<RequestRecord>) {
    && IsPercentile(row.p50, Samples(rows, Latency()), 50)
    && IsPercentile(row.p95, Samples(rows, Latency()), 95)
    && IsPercentile(row.p99, Samples(rows, Latency()), 99)
    && IsPercentile(row.ttftP50, Samples(rows, FirstContent()), 50)
    && IsPercentile(row.ttftP95, Samples(rows, FirstContent()), 95)
    && IsPercentile(row.tpotP50, Samples(rows, PerToken()), 50)
    && IsPercentile(row.itlP50, Samples(rows, MeanGap()), 50)
    && IsPercentile(row.itlP99, Samples(rows, TailGap()), 99)
  }

  lemma ErrorRateIs(n: nat, ok: nat, failed: nat, rate: real)
    requires n > 0 && failed == n - ok && rate == 1.0 - ok as real / n as real
    ensures rate == failed as real / n as real
  {
    var a, b := n as real, ok as real;
    var q := b / a;
    assert q * a == b;
    assert rate * a == a - q * a;
    QuotientIs(rate, a, failed as real);
  }

  lemma QuotientIs(q: real, a: real, c: real)
    requires a > 0.0 && q * a == c
    ensures q == c / a
  {
  }

  lemma CountsRead(rows: seq<RequestRecord>, c: int, contaminated: bool, timing: Report, meta: Option<A.Meta>)
    ensures CountFields(A.RowOf(rows, c, contaminated, timing, meta), rows, c)
  {
    FailuresAreTheRest(rows, Failed());
    if rows != [] {
      ErrorRateIs(|rows|, Count(rows, IsOk()), Count(rows, Failed()),
                  A.RowOf(rows, c, contaminated, timing, meta).errorRate);
    }
  }

  lemma PercentilesRead(rows: seq<RequestRecord>, c: int, contaminated: bool, timing: Report, meta: Option<A.Meta>)
    ensures PercentileFields(A.RowOf(rows, c, contaminated, timing, meta), rows)
  {
    ReportedAreSamples(rows, A.TotalMs(), Latency());
    ReportedAreSamples(rows, A.TtftMs(), FirstContent());
    ReportedAreSamples(rows, A.TpotMs(), PerToken());
    ReportedAreSamples(rows, A.ItlMeanMs(), MeanGap());
    ReportedAreSamples(rows, A.ItlP99Ms(), TailGap());
    PctIsPercentile(Samples(rows, Latency()), 50);
    PctIsPercentile(Samples(rows, Latency()), 95);
    PctIsPercentile(Samples(rows, Latency()), 99);
    PctIsPercentile(Samples(rows, FirstContent()), 50);
    PctIsPercentile(Samples(rows, FirstContent()), 95);
    PctIsPercentile(Samples(rows, PerToken()), 50);
    PctIsPercentile(Samples(rows, MeanGap()), 50);
    PctIsPercentile(Samples(rows, TailGap()), 99);
  }

  lemma TaintIs(records: seq<RequestRecord>, c: int, params: Params)
    ensures A.Tainted(Levels(records), A.RowsOf(records), c, A.TimingsOf(records, params))
       <==> TaintedUpTo(records, c, params)
  {
    LevelsAreSorted(records);
    var timing := A.TimingsOf(records, params);
    forall d
      ensures Count(A.RowsOf(records)(d), IsAbandoned()) > 0
         <==> exists r :: r in records && r.concurrency == d && r.abandoned
    {
      FilterMembers(records, OfLevel(d));
      CountZero(Filter(records, OfLevel(d)), IsAbandoned());
    }
    if A.Tainted(Levels(records), A.RowsOf(records), c, timing) {
      var d :| d in Levels(records) && d <= c && A.Taints(A.RowsOf(records), d, timing);
      var i :| 0 <= i < |records| && records[i].concurrency == d;
      assert records[i] in records;
    }
    forall r | r in records && r.concurrency <= c
               && (r.abandoned || TimingOf(records, r.concurrency, params).clockAnomaly)
      ensures A.Tainted(Levels(records), A.RowsOf(records), c, timing)
    {
      assert r.concurrency in Levels(records) && A.Taints(A.RowsOf(records), r.concurrency, timing);
    }
  }

  /**
   * The statistics of a run: one row per level that has records, in increasing order, whose counts, error rate and
   * percentiles are those of the level's own records, and whose contamination comes from it or from below.
   */
  lemma RowsRead(records: seq<RequestRecord>, p: Params, meta: Option<A.Meta>, k: nat)
    requires k < |A.Aggregated(records, p, meta)|
    ensures |A.Aggregated(records, p, meta)| == |Levels(records)|
    ensures var row, c := A.Aggregated(records, p, meta)[k], Levels(records)[k];
            && CountFields(row, Filter(records, OfLevel(c)), c)
            && PercentileFields(row, Filter(records, OfLevel(c)))
            && row.timing == TimingOf(records, c, ParametersOf(p, meta))
            && (row.contaminated <==> TaintedUpTo(records, c, ParametersOf(p, meta)))
            && row.injector == InjectorAt(meta, c) && row.meta == meta
  {
    var c, params := Levels(records)[k], ParametersOf(p, meta);
    assert A.Effective(p, meta) == params;
    TaintIs(records, c, params);
    var rows := Filter(records, OfLevel(c));
    var tainted := A.Tainted(Levels(records), A.RowsOf(records), c, A.TimingsOf(records, params));
    CountsRead(rows, c, tainted, TimingOf(records, c, params), meta);
    PercentilesRead(rows, c, tainted, TimingOf(records, c, params), meta);
  }

  // ----- enriching any statistics

  /** The raw records the rows carry, one row after another. */
  function Carried(stats: seq<A.LevelStats>): (records: seq<RequestRecord>) {
    if stats == [] then [] else Carried(stats[..|stats| - 1]) + stats[|stats| - 1].rows
  }

  /** A row up to the `k`-th abandoned a request or shows a clock anomaly in the new timing. */
  ghost predicate TaintedByRows(sorted: seq<A.LevelStats>, k: nat, timing: int -> Report) {
    exists j :: 0 <= j <= k && j < |sorted| && (sorted[j].abandoned > 0 || timing(sorted[j].concurrency).clockAnomaly)
  }

  /** A row as it was, but for timing, contamination, injector and metadata. */
  ghost predicate IsEnriched(rich: A.LevelStats, plain: A.LevelStats, meta: A.Meta, timing: int -> Report,
                             tainted: bool)
  {
    rich == plain.(timing := timing(plain.concurrency), contaminated := tainted,
                   injector := InjectorAt(Some(meta), plain.concurrency), meta := Some(meta))
  }

  lemma {:induction false} CarriedIsFlat(stats: seq<A.LevelStats>)
    ensures A.Flatten(stats) == Carried(stats)
  {
    if stats != [] {
      CarriedIsFlat(stats[..|stats| - 1]);
    }
  }

  lemma TaintPrefix(sorted: seq<A.LevelStats>, k: nat, timing: int -> Report)
    requires sorted != [] && k < |sorted| - 1
    ensures TaintedByRows(sorted[..|sorted| - 1], k, timing) <==> TaintedByRows(sorted, k, timing)
  {
    assert forall j :: 0 <= j < |sorted| - 1 ==> sorted[..|sorted| - 1][j] == sorted[j];
  }

  lemma {:induction false} AnyTaintIs(sorted: seq<A.LevelStats>, timing: int -> Report)
    ensures A.AnyTaint(sorted, timing) <==> sorted != [] && TaintedByRows(sorted, |sorted| - 1, timing)
  {
    if sorted != [] {
      var n := |sorted| - 1;
      AnyTaintIs(sorted[..n], timing);
      if n > 0 {
        TaintPrefix(sorted, n - 1, timing);
      }
    }
  }

  lemma {:induction false} EnrichedRows(sorted: seq<A.LevelStats>, timing: int -> Report, meta: A.Meta)
    ensures |A.EnrichAll(sorted, timing, meta)| == |sorted|
    ensures forall k :: 0 <= k < |sorted| ==>
              IsEnriched(A.EnrichAll(sorted, timing, meta)[k], sorted[k], meta, timing,
                         TaintedByRows(sorted, k, timing))
  {
    if sorted != [] {
      var n := |sorted| - 1;
      EnrichedRows(sorted[..n], timing, meta);
      AnyTaintIs(sorted, timing);
      forall k | 0 <= k < n
        ensures TaintedByRows(sorted[..n], k, timing) <==> TaintedByRows(sorted, k, timing)
      {
        TaintPrefix(sorted, k, timing);
      }
    }
  }

  /** The first row, in order, whose level has no carried record. */
  ghost predicate IsFirstMissing(k: nat, sorted: seq<A.LevelStats>, records: seq<RequestRecord>) {
    && k < |sorted| && Lacks(sorted[k].concurrency, records)
    && forall j :: 0 <= j < k ==> !Lacks(sorted[j].concurrency, records)
  }

  ghost predicate Lacks(c: int, records: seq<RequestRecord>) {
    forall r :: r in records ==> r.concurrency != c
  }

  lemma LacksIs(c: int, records: seq<RequestRecord>)
    ensures c in Levels(records) <==> !Lacks(c, records)
  {
    LevelsAreSorted(records);
    if c in Levels(records) {
      var i :| 0 <= i < |records| && records[i].concurrency == c;
      assert records[i] in records;
    }
  }

  lemma {:induction false} MissingIs(sorted: seq<A.LevelStats>, records: seq<RequestRecord>)
    ensures A.FirstMissing(sorted, records).None? ==>
              forall k :: 0 <= k < |sorted| ==> !Lacks(sorted[k].concurrency, records)
    ensures A.FirstMissing(sorted, records).Some? ==>
              exists k: nat :: IsFirstMissing(k, sorted, records)
                               && sorted[k].concurrency == A.FirstMissing(sorted, records).value
  {
    if sorted != [] {
      LacksIs(sorted[0].concurrency, records);
      MissingIs(sorted[1..], records);
      assert forall j :: 0 <= j < |sorted| - 1 ==> sorted[1..][j] == sorted[j + 1];
      if Lacks(sorted[0].concurrency, records) {
        assert IsFirstMissing(0, sorted, records);
      } else if A.FirstMissing(sorted, records).Some? {
        var k: nat :| IsFirstMissing(k, sorted[1..], records)
                      && sorted[1..][k].concurrency == A.FirstMissing(sorted[1..], records).value;
        assert IsFirstMissing(k + 1, sorted, records);
      }
    }
  }

  /** Nothing to add: no metadata, no rows, rows that already carry this metadata, or rows without raw records. */
  lemma NothingToAdd(stats: seq<A.LevelStats>, meta: Option<A.Meta>)
    requires meta.None? || (forall k :: 0 <= k < |stats| ==> stats[k].meta == meta) || Carried(stats) == []
    ensures A.WithRunTiming(stats, meta) == Ok(stats)
  {
    CarriedIsFlat(stats);
  }

  /** The rows enriched with a timing, or the first level without a record as an error. */
  ghost predicate EnrichedWith(r: Result<seq<A.LevelStats>, A.LookupError>, sorted: seq<A.LevelStats>,
                               records: seq<RequestRecord>, meta: A.Meta, timing: int -> Report)
  {
    match r
    case Err(MissingLevel(c)) => exists k: nat :: IsFirstMissing(k, sorted, records) && sorted[k].concurrency == c
    case Ok(rich) =>
      && |rich| == |sorted| && (forall k :: 0 <= k < |sorted| ==> !Lacks(sorted[k].concurrency, records))
      && forall k :: 0 <= k < |sorted| ==>
           IsEnriched(rich[k], sorted[k], meta, timing, TaintedByRows(sorted, k, timing))
  }

  lemma LoopEnriches(sorted: seq<A.LevelStats>, records: seq<RequestRecord>, meta: A.Meta, timing: int -> Report,
                     r: Result<seq<A.LevelStats>, A.LookupError>)
    requires var missing := A.FirstMissing(sorted, records);
             r == if missing.Some? then Err(A.MissingLevel(missing.value)) else Ok(A.EnrichAll(sorted, timing, meta))
    ensures EnrichedWith(r, sorted, records, meta, timing)
  {
    MissingIs(sorted, records);
    EnrichedRows(sorted, timing, meta);
  }

  lemma RunsLoop(stats: seq<A.LevelStats>, meta: A.Meta)
    requires Carried(stats) != [] && exists k :: 0 <= k < |stats| && stats[k].meta != Some(meta)
    ensures var sorted, records := SortBy(stats, A.ByLevel()), Carried(stats);
            var missing := A.FirstMissing(sorted, records);
            A.WithRunTiming(stats, Some(meta))
            == if missing.Some? then Err(A.MissingLevel(missing.value))
               else Ok(A.EnrichAll(sorted, A.TimingsOf(records, A.ParamsOf(meta)), meta))
  {
    CarriedIsFlat(stats);
  }

  /**
   * Any other statistics, wherever they come from: every row, by level, with the timing of all carried records
   * under the metadata, contaminated by any row up to it; or the first level without a record as an error.
   */
  lemma AnyStatisticsAreEnriched(stats: seq<A.LevelStats>, meta: A.Meta)
    requires Carried(stats) != [] && exists k :: 0 <= k < |stats| && stats[k].meta != Some(meta)
    ensures EnrichedWith(A.WithRunTiming(stats, Some(meta)), SortBy(stats, A.ByLevel()), Carried(stats), meta,
                         A.TimingsOf(Carried(stats), A.ParamsOf(meta)))
  {
    RunsLoop(stats, meta);
    LoopEnriches(SortBy(stats, A.ByLevel()), Carried(stats), meta, A.TimingsOf(Carried(stats), A.ParamsOf(meta)),
                 A.WithRunTiming(stats, Some(meta)));
  }

  /** That timing is the report of the carried records under what the metadata says. */
  lemma EnrichedTimingIs(records: seq<RequestRecord>, meta: A.Meta, p: Params, c: int)
    ensures A.TimingsOf(records, A.ParamsOf(meta))(c) == TimingOf(records, c, ParametersOf(p, Some(meta)))
  {
    assert A.ParamsOf(meta) == ParametersOf(p, Some(meta));
  }
}
