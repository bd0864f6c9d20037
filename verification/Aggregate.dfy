/**
 * kneepoint/analyze/knee.py: per-level statistics, computed up front or enriched with run metadata later.
 */
module Aggregate {
  import opened Basics
  import opened Records
  import opened Grouping
  import opened Ordering
  import opened Percentile
  import opened Timing

  datatype Injector = Injector(samples: nat, limited: bool)

  /** The part of the run sidecar the statistics depend on, and the run it belongs to. */
  datatype Meta = Meta(
    runId: string,
    hold: real,
    thinkMinMs: Option<int>,
    thinkMaxMs: Option<int>,
    levelStarts: Option<map<int, real>>,
    levelStatus: Option<map<int, RunStatus>>,
    injectors: Option<map<int, Injector>>)

  /** `timing_from_metadata`: how metadata reads as analysis parameters. */
  function ParamsOf(meta: Meta): (params: Params) {
    Params(Some(meta.hold),
           if meta.thinkMinMs.Some? && meta.thinkMaxMs.Some?
           then Some((meta.thinkMinMs.value, meta.thinkMaxMs.value)) else None,
           if meta.levelStarts.Some? then meta.levelStarts.value else map[],
           meta.levelStatus)
  }

  /** Metadata, when given, replaces the caller's own parameters. */
  function Effective(p: Params, meta: Option<Meta>): (params: Params) {
    if meta.Some? then ParamsOf(meta.value) else p
  }

  datatype LevelStats = LevelStats(
    concurrency: int,
    n: nat,
    successfulN: nat,
    errorRate: real,
    p50: Option<real>,
    p95: Option<real>,
    p99: Option<real>,
    abandoned: nat,
    contaminated: bool,
    timing: Report,
    injector: Option<Injector>,
    ttftP50: Option<real>,
    ttftP95: Option<real>,
    tpotP50: Option<real>,
    itlP50: Option<real>,
    itlP99: Option<real>,
    rows: seq<RequestRecord>,
    meta: Option<Meta>)

  function InjectorOf(meta: Option<Meta>, c: int): (r: Option<Injector>) {
    if meta.Some? && meta.value.injectors.Some? && c in meta.value.injectors.value
    then Some(meta.value.injectors.value[c]) else None
  }

  /** The reported values of one field over the successful rows. */
  function Reported(rows: seq<RequestRecord>, f: RequestRecord -> Option<real>): (s: seq<real>) {
    if rows == [] then []
    else
      var before := Reported(rows[..|rows| - 1], f);
      var r := rows[|rows| - 1];
      if r.ok && f(r).Some? then before + [f(r).value] else before
  }

  function TotalMs(): (f: RequestRecord -> Option<real>) { (r: RequestRecord) => Some(r.totalMs) }
  function TtftMs(): (f: RequestRecord -> Option<real>) { (r: RequestRecord) => r.ttftMs }
  function TpotMs(): (f: RequestRecord -> Option<real>) { (r: RequestRecord) => r.TpotMs() }
  function ItlMeanMs(): (f: RequestRecord -> Option<real>) { (r: RequestRecord) => r.itlMeanMs }
  function ItlP99Ms(): (f: RequestRecord -> Option<real>) { (r: RequestRecord) => r.itlP99Ms }

  /** One level's row: everything but the contamination flag comes from its own records and its timing. */
  function RowOf(rows: seq<RequestRecord>, c: int, contaminated: bool, timing: Report, meta: Option<Meta>)
    : (row: LevelStats)
  {
    var ok := Count(rows, IsOk());
    LevelStats(
      c, |rows|, ok, if rows == [] then 0.0 else 1.0 - ok as real / |rows| as real,
      PctOpt(Reported(rows, TotalMs()), 50), PctOpt(Reported(rows, TotalMs()), 95),
      PctOpt(Reported(rows, TotalMs()), 99),
      Count(rows, IsAbandoned()), contaminated, timing, InjectorOf(meta, c),
      PctOpt(Reported(rows, TtftMs()), 50), PctOpt(Reported(rows, TtftMs()), 95),
      PctOpt(Reported(rows, TpotMs()), 50), PctOpt(Reported(rows, ItlMeanMs()), 50),
      PctOpt(Reported(rows, ItlP99Ms()), 99),
      rows, meta)
  }

  /** A row from a level's records, its number, the contamination flag and the level's timing. */
  type RowMaker = (seq<RequestRecord>, int, bool, Report) -> LevelStats

  function MakeRow(meta: Option<Meta>): (make: RowMaker) {
    (rows: seq<RequestRecord>, c: int, contaminated: bool, timing: Report) => RowOf(rows, c, contaminated, timing, meta)
  }

  /** The timing of a record list, level by level. */
  function TimingsOf(records: seq<RequestRecord>, p: Params): (f: int -> Report) {
    (c: int) => TimingOf(records, c, p)
  }

  function RowsOf(records: seq<RequestRecord>): (f: int -> seq<RequestRecord>) {
    (c: int) => Filter(records, OfLevel(c))
  }

  /** A level that abandoned a request or shows a clock anomaly taints itself and every level above it. */
  predicate Taints(rows: int -> seq<RequestRecord>, d: int, timing: int -> Report) {
    Count(rows(d), IsAbandoned()) > 0 || timing(d).clockAnomaly
  }

  ghost predicate Tainted(levels: seq<int>, rows: int -> seq<RequestRecord>, c: int, timing: int -> Report) {
    exists d :: d in levels && d <= c && Taints(rows, d, timing)
  }

  ghost function StatsOf(records: seq<RequestRecord>, c: int, timing: int -> Report, make: RowMaker)
    : (row: LevelStats)
  {
    make(Filter(records, OfLevel(c)), c, Tainted(Levels(records), RowsOf(records), c, timing), timing(c))
  }

  ghost function StatsBy(records: seq<RequestRecord>, timing: int -> Report, make: RowMaker): (s: seq<LevelStats>) {
    seq(|Levels(records)|, k requires 0 <= k < |Levels(records)| => StatsOf(records, Levels(records)[k], timing, make))
  }

  ghost function AllStats(records: seq<RequestRecord>, timing: int -> Report, meta: Option<Meta>)
    : (s: seq<LevelStats>)
  {
    StatsBy(records, timing, MakeRow(meta))
  }

  /** What `aggregate` returns. */
  ghost function Aggregated(records: seq<RequestRecord>, p: Params, meta: Option<Meta>): (s: seq<LevelStats>) {
    AllStats(records, TimingsOf(records, Effective(p, meta)), meta)
  }

  /** Walking the levels upwards, the running flag is the taint of everything seen so far. */
  lemma TaintSoFar(levels: seq<int>, rows: int -> seq<RequestRecord>, k: nat, timing: int -> Report)
    requires k < |levels| && Ascending(levels)
    ensures Tainted(levels, rows, levels[k], timing)
       <==> (k > 0 && Tainted(levels, rows, levels[k - 1], timing)) || Taints(rows, levels[k], timing)
  {
    if Tainted(levels, rows, levels[k], timing) && !Taints(rows, levels[k], timing) {
      var d :| d in levels && d <= levels[k] && Taints(rows, d, timing);
      var j :| 0 <= j < |levels| && levels[j] == d;
      assert j < k && levels[j] <= levels[k - 1];
      assert Tainted(levels, rows, levels[k - 1], timing);
    }
    if k > 0 && Tainted(levels, rows, levels[k - 1], timing) {
      var d :| d in levels && d <= levels[k - 1] && Taints(rows, d, timing);
      assert levels[k - 1] < levels[k];
      assert d <= levels[k];
    }
    assert levels[k] in levels;
  }

  /** One turn of the loop of `aggregate`: `before` and `after` are the running contamination flag. */
  ghost predicate RowStep(c: int, rows: seq<RequestRecord>, report: Report, make: RowMaker, before: bool,
                          row: LevelStats, after: bool) {
    && after == (before || Count(rows, IsAbandoned()) > 0 || report.clockAnomaly)
    && row == make(rows, c, after, report)
  }

  ghost predicate EveryStep(levels: seq<int>, rows: int -> seq<RequestRecord>, reports: int -> Report,
                            make: RowMaker, flags: seq<bool>, expected: seq<LevelStats>) {
    && |flags| == |expected| == |levels|
    && forall k :: 0 <= k < |levels| ==>
         RowStep(levels[k], rows(levels[k]), reports(levels[k]), make, Before(flags, k), expected[k], flags[k])
  }

  /** The flag a level starts from. */
  predicate Before(flags: seq<bool>, k: nat)
    requires k <= |flags|
  {
    k > 0 && flags[k - 1]
  }

  /** The flag after each level. */
  ghost function Flags(levels: seq<int>, rows: int -> seq<RequestRecord>, timing: int -> Report): (s: seq<bool>) {
    seq(|levels|, k requires 0 <= k < |levels| => Tainted(levels, rows, levels[k], timing))
  }

  /** `aggregate`: group the records, analyze their timing, then one row per level. */
  method AggregateRecords(records: seq<RequestRecord>, p: Params, meta: Option<Meta>) returns (stats: seq<LevelStats>)
    ensures stats == Aggregated(records, p, meta)
  {
    var groups := GroupByLevel(records);
    var timing := AnalyzeTiming(records, Effective(p, meta));
    ghost var reports := TimingsOf(records, Effective(p, meta));
    assert Lookups(groups, timing, RowsOf(records), reports);
    var levels := SortedKeys(groups.Keys);
    LevelsAreSorted(records);
    AscendingUnique(levels, Levels(records));
    stats := RowByRow(levels, groups, timing, records, reports, MakeRow(meta));
  }

  ghost predicate Lookups(groups: map<int, seq<RequestRecord>>, timing: map<int, LevelTiming>,
                          rows: int -> seq<RequestRecord>, reports: int -> Report)
    reads timing.Values
  {
    forall c :: c in groups ==> groups[c] == rows(c) && c in timing && timing[c].report == reports(c)
  }

  /** The loop: levels in increasing order, contamination carried forward in one flag. */
  method RowByRow(levels: seq<int>, groups: map<int, seq<RequestRecord>>, timing: map<int, LevelTiming>,
                  ghost records: seq<RequestRecord>, ghost reports: int -> Report, make: RowMaker)
    returns (stats: seq<LevelStats>)
    requires levels == Levels(records) && forall c :: c in levels ==> c in groups
    requires Lookups(groups, timing, RowsOf(records), reports)
    ensures stats == StatsBy(records, reports, make)
  {
    ghost var rows := RowsOf(records);
    ghost var flags, expected := Flags(levels, rows, reports), StatsBy(records, reports, make);
    LoopRows(records, reports, make);
    stats := [];
    var seen := false;
    for k := 0 to |levels|
      invariant stats == expected[..k]
      invariant seen == Before(flags, k)
    {
      assert levels[k] in levels;
      var group, report := Fetch(groups, timing, levels[k], rows, reports);
      StepAt(levels, rows, reports, make, flags, expected, k);
      var row;
      row, seen := OneRow(levels[k], group, report, make, seen);
      PrefixGrows(expected, k, row);
      stats := stats + [row];
    }
  }

  lemma PrefixGrows<T>(s: seq<T>, k: nat, x: T)
    requires k < |s| && x == s[k]
    ensures s[..k] + [x] == s[..k + 1]
  {
  }

  method Fetch(groups: map<int, seq<RequestRecord>>, timing: map<int, LevelTiming>, c: int,
               ghost rows: int -> seq<RequestRecord>, ghost reports: int -> Report)
    returns (group: seq<RequestRecord>, report: Report)
    requires Lookups(groups, timing, rows, reports) && c in groups
    ensures group == rows(c) && report == reports(c)
  {
    group, report := groups[c], timing[c].report;
  }

  lemma StepAt(levels: seq<int>, rows: int -> seq<RequestRecord>, reports: int -> Report,
               make: RowMaker, flags: seq<bool>, expected: seq<LevelStats>, k: nat)
    requires EveryStep(levels, rows, reports, make, flags, expected) && k < |levels|
    ensures RowStep(levels[k], rows(levels[k]), reports(levels[k]), make, Before(flags, k), expected[k], flags[k])
  {
  }

  method OneRow(c: int, group: seq<RequestRecord>, report: Report, make: RowMaker, before: bool)
    returns (row: LevelStats, tainted: bool)
    ensures RowStep(c, group, report, make, before, row, tainted)
  {
    var abandoned := CountWhere(group, IsAbandoned());
    tainted := before || abandoned > 0 || report.clockAnomaly;
    row := make(group, c, tainted, report);
  }

  lemma LoopRows(records: seq<RequestRecord>, timing: int -> Report, make: RowMaker)
    ensures EveryStep(Levels(records), RowsOf(records), timing, make,
                      Flags(Levels(records), RowsOf(records), timing), StatsBy(records, timing, make))
  {
    var levels, rows := Levels(records), RowsOf(records);
    var flags, expected := Flags(levels, rows, timing), StatsBy(records, timing, make);
    LevelsAreSorted(records);
    forall k | 0 <= k < |levels|
      ensures RowStep(levels[k], rows(levels[k]), timing(levels[k]), make, Before(flags, k), expected[k], flags[k])
    {
      TaintSoFar(levels, rows, k, timing);
    }
  }

  // ----- enriching later

  function Flatten(stats: seq<LevelStats>): (s: seq<RequestRecord>) {
    if stats == [] then [] else Flatten(stats[..|stats| - 1]) + stats[|stats| - 1].rows
  }

  function ByLevel(): (f: LevelStats -> int) {
    (s: LevelStats) => s.concurrency
  }

  /** The copied fields, named one by one; together they are the whole report, so nothing of the old one stays. */
  function CopyTiming(before: Report, t: Report): (copied: Report)
    ensures copied == t
  {
    before.(
         throughput := t.throughput, steadyThroughput := t.steadyThroughput, steadyCompletions := t.steadyCompletions,
         window := t.window, successes := t.successes, scalingThroughput := t.scalingThroughput, littleN := t.littleN,
         judged := t.judged, countResolution := t.countResolution,
         meanResponse := t.meanResponse, littleGap := t.littleGap, littleResolution := t.littleResolution,
         stallThreshold := t.stallThreshold, throughputBound := t.throughputBound, boundResolution := t.boundResolution,
         estimatorProblem := t.estimatorProblem,
         suspectedStall := t.suspectedStall, clockAnomaly := t.clockAnomaly, exactClockStep := t.exactClockStep,
         continuityGap := t.continuityGap, maxContinuityGap := t.maxContinuityGap,
         source := t.source)
  }

  /** One copied row: its timing, contamination, injector and metadata are replaced, nothing else. */
  function Enriched(s: LevelStats, contaminated: bool, timing: Report, meta: Meta): (row: LevelStats) {
    s.(timing := CopyTiming(s.timing, timing), contaminated := contaminated,
       injector := InjectorOf(Some(meta), s.concurrency),
       meta := Some(meta))
  }

  function EnrichAll(sorted: seq<LevelStats>, timing: int -> Report, meta: Meta): (s: seq<LevelStats>) {
    if sorted == [] then []
    else
      var n := |sorted| - 1;
      EnrichAll(sorted[..n], timing, meta)
      + [Enriched(sorted[n], AnyTaint(sorted, timing), timing(sorted[n].concurrency), meta)]
  }

  predicate AnyTaint(sorted: seq<LevelStats>, timing: int -> Report) {
    if sorted == [] then false
    else AnyTaint(sorted[..|sorted| - 1], timing) || TaintsRow(sorted[|sorted| - 1], timing)
  }

  predicate TaintsRow(s: LevelStats, timing: int -> Report) {
    s.abandoned > 0 || timing(s.concurrency).clockAnomaly
  }

  datatype LookupError = MissingLevel(concurrency: int)

  /** `with_run_timing`; a row whose level has no record among the retained ones is a failed lookup. */
  function WithRunTiming(stats: seq<LevelStats>, meta: Option<Meta>): (r: Result<seq<LevelStats>, LookupError>) {
    if meta.None? || stats == [] then Ok(stats)
    else if forall k :: 0 <= k < |stats| ==> stats[k].meta == meta then Ok(stats)
    else
      var records := Flatten(stats);
      if records == [] then Ok(stats)
      else
        var missing := FirstMissing(SortBy(stats, ByLevel()), records);
        if missing.Some? then Err(MissingLevel(missing.value))
        else Ok(EnrichAll(SortBy(stats, ByLevel()), TimingsOf(records, ParamsOf(meta.value)), meta.value))
  }

  function FirstMissing(sorted: seq<LevelStats>, records: seq<RequestRecord>): (r: Option<int>) {
    if sorted == [] then None
    else if sorted[0].concurrency !in Levels(records) then Some(sorted[0].concurrency)
    else FirstMissing(sorted[1..], records)
  }

  /** The loop of `with_run_timing` over rows already sorted by level. */
  method EnrichLoop(sorted: seq<LevelStats>, records: seq<RequestRecord>, meta: Meta)
    returns (r: Result<seq<LevelStats>, LookupError>)
    ensures var missing := FirstMissing(sorted, records);
            r == if missing.Some? then Err(MissingLevel(missing.value))
                 else Ok(EnrichAll(sorted, TimingsOf(records, ParamsOf(meta)), meta))
  {
    var timing := AnalyzeTiming(records, ParamsOf(meta));
    ghost var timings := TimingsOf(records, ParamsOf(meta));
    var result: seq<LevelStats> := [];
    var contaminated := false;
    for k := 0 to |sorted|
      invariant result == EnrichAll(sorted[..k], timings, meta)
      invariant contaminated == AnyTaint(sorted[..k], timings)
      invariant FirstMissing(sorted, records) == FirstMissing(sorted[k..], records)
      invariant forall c :: c in timing ==> timing[c].report == timings(c)
    {
      var s := sorted[k];
      assert sorted[k..][1..] == sorted[k + 1..];
      if s.concurrency !in timing {
        return Err(MissingLevel(s.concurrency));
      }
      var report := timing[s.concurrency].report;
      contaminated := contaminated || s.abandoned > 0 || report.clockAnomaly;
      EnrichSnoc(sorted, k, timings, meta);
      result := result + [Enriched(s, contaminated, report, meta)];
    }
    assert sorted[..|sorted|] == sorted;
    r := Ok(result);
  }

  /** `with_run_timing` with its early returns: nothing to add, already added, no raw evidence. */
  method EnrichRun(stats: seq<LevelStats>, meta: Option<Meta>) returns (r: Result<seq<LevelStats>, LookupError>)
    ensures r == WithRunTiming(stats, meta)
  {
    if meta.None? || stats == [] {
      return Ok(stats);
    }
    var same, records := true, [];
    for k := 0 to |stats|
      invariant same <==> forall j :: 0 <= j < k ==> stats[j].meta == meta
      invariant records == Flatten(stats[..k])
    {
      assert stats[..k + 1][..k] == stats[..k];
      same := same && stats[k].meta == meta;
      records := records + stats[k].rows;
    }
    assert stats[..|stats|] == stats;
    if same || records == [] {
      return Ok(stats);
    }
    r := EnrichLoop(SortBy(stats, ByLevel()), records, meta.value);
  }

  lemma EnrichSnoc(sorted: seq<LevelStats>, k: nat, timing: int -> Report, meta: Meta)
    requires k < |sorted|
    ensures var s := sorted[k];
            && AnyTaint(sorted[..k + 1], timing)
               == (AnyTaint(sorted[..k], timing) || TaintsRow(s, timing))
            && EnrichAll(sorted[..k + 1], timing, meta)
               == EnrichAll(sorted[..k], timing, meta)
                  + [Enriched(s, AnyTaint(sorted[..k + 1], timing), timing(s.concurrency), meta)]
  {
    assert sorted[..k + 1][..k] == sorted[..k];
  }

  // ----- the two ways agree

  /** Rows grouped by level and strung together again give back each level's own list. */
  lemma {:induction false} FlattenKeepsGroups(records: seq<RequestRecord>, stats: seq<LevelStats>, d: int)
    requires forall i, j :: 0 <= i < j < |stats| ==> stats[i].concurrency < stats[j].concurrency
    requires forall k :: 0 <= k < |stats| ==> stats[k].rows == Filter(records, OfLevel(stats[k].concurrency))
    ensures Filter(Flatten(stats), OfLevel(d)) == if HasRow(stats, d) then Filter(records, OfLevel(d)) else []
  {
    if stats != [] {
      var n := |stats| - 1;
      FlattenKeepsGroups(records, stats[..n], d);
      FilterConcat(Flatten(stats[..n]), stats[n].rows, OfLevel(d));
      FilterTwice(records, stats[n].concurrency, d);
      LastRow(stats, d);
      var own := Filter(records, OfLevel(d));
      assert [] + own == own && own + [] == own && [] + [] == own[..0];
    }
  }

  ghost predicate HasRow(stats: seq<LevelStats>, d: int) {
    exists k :: 0 <= k < |stats| && stats[k].concurrency == d
  }

  lemma LastRow(stats: seq<LevelStats>, d: int)
    requires stats != []
    requires forall i, j :: 0 <= i < j < |stats| ==> stats[i].concurrency < stats[j].concurrency
    ensures HasRow(stats, d) <==> stats[|stats| - 1].concurrency == d || HasRow(stats[..|stats| - 1], d)
    ensures stats[|stats| - 1].concurrency == d ==> !HasRow(stats[..|stats| - 1], d)
  {
    var n := |stats| - 1;
    if k :| 0 <= k < n && stats[k].concurrency == d {
      assert stats[..n][k].concurrency == d;
    }
  }

  /** Of one level's records, another level's filter keeps nothing and its own keeps all. */
  lemma FilterTwice(records: seq<RequestRecord>, c: int, d: int)
    ensures Filter(Filter(records, OfLevel(c)), OfLevel(d)) == if c == d then Filter(records, OfLevel(c)) else []
  {
    var rows := Filter(records, OfLevel(c));
    FilterMembers(records, OfLevel(c));
    FilterAllOrNone(rows, OfLevel(d));
    assert c == d ==> forall x :: x in rows ==> OfLevel(d)(x);
    assert c != d ==> forall x :: x in rows ==> !OfLevel(d)(x);
  }

  lemma StatsShape(records: seq<RequestRecord>, timing: int -> Report, meta: Option<Meta>)
    ensures var stats := AllStats(records, timing, meta);
            && (forall i, j :: 0 <= i < j < |stats| ==> stats[i].concurrency < stats[j].concurrency)
            && (forall k :: 0 <= k < |stats| ==>
                  && stats[k].concurrency == Levels(records)[k]
                  && stats[k].rows == Filter(records, OfLevel(stats[k].concurrency))
                  && stats[k].meta == meta
                  && stats[k].abandoned == Count(Filter(records, OfLevel(stats[k].concurrency)), IsAbandoned()))
  {
    LevelsAreSorted(records);
  }

  lemma FlattenReadsTheSame(records: seq<RequestRecord>, timing: int -> Report, first: Option<Meta>, d: int)
    ensures Filter(Flatten(AllStats(records, timing, first)), OfLevel(d)) == Filter(records, OfLevel(d))
  {
    var stats := AllStats(records, timing, first);
    StatsShape(records, timing, first);
    FlattenKeepsGroups(records, stats, d);
    LevelHasGroup(records, d);
    if d in Levels(records) {
      var k :| 0 <= k < |Levels(records)| && Levels(records)[k] == d;
      assert stats[k].concurrency == d;
    } else {
      forall k | 0 <= k < |stats|
        ensures stats[k].concurrency != d
      {
        assert Levels(records)[k] in Levels(records);
      }
    }
  }

  /** The same records, grouped: every analysis of them agrees. */
  ghost predicate Regrouped(others: seq<RequestRecord>, records: seq<RequestRecord>) {
    forall d: int :: Filter(others, OfLevel(d)) == Filter(records, OfLevel(d))
  }

  ghost predicate SameTiming(t: int -> Report, u: int -> Report) {
    forall c :: t(c) == u(c)
  }

  lemma RegroupedTiming(others: seq<RequestRecord>, records: seq<RequestRecord>, p: Params)
    requires Regrouped(others, records)
    ensures Levels(others) == Levels(records) && SameTiming(TimingsOf(others, p), TimingsOf(records, p))
  {
    var t, u := TimingsOf(others, p), TimingsOf(records, p);
    InterleavingIsIrrelevant(others, records, 0, p);
    forall c: int
      ensures t(c) == u(c)
    {
      InterleavingIsIrrelevant(others, records, c, p);
    }
  }

  lemma AnyTaintStep(stats: seq<LevelStats>, k: nat, timing: int -> Report)
    requires k < |stats|
    ensures AnyTaint(stats[..k + 1], timing) == (AnyTaint(stats[..k], timing) || TaintsRow(stats[k], timing))
  {
    assert stats[..k + 1][..k] == stats[..k];
  }

  lemma RowTaints(records: seq<RequestRecord>, earlier: int -> Report, first: Option<Meta>,
                  timing: int -> Report, k: nat)
    requires k < |Levels(records)|
    ensures TaintsRow(AllStats(records, earlier, first)[k], timing)
       <==> Taints(RowsOf(records), Levels(records)[k], timing)
  {
    StatsShape(records, earlier, first);
  }

  /** The flag the enriching loop carries is the taint of the levels passed. */
  lemma {:induction false} TaintPrefix(records: seq<RequestRecord>, earlier: int -> Report, first: Option<Meta>,
                                       timing: int -> Report, k: nat)
    requires k <= |Levels(records)|
    ensures AnyTaint(AllStats(records, earlier, first)[..k], timing)
       <==> k > 0 && Tainted(Levels(records), RowsOf(records), Levels(records)[k - 1], timing)
  {
    if k > 0 {
      TaintPrefix(records, earlier, first, timing, k - 1);
      AnyTaintStep(AllStats(records, earlier, first), k - 1, timing);
      RowTaints(records, earlier, first, timing, k - 1);
      LevelsAreSorted(records);
      TaintSoFar(Levels(records), RowsOf(records), k - 1, timing);
    }
  }

  /** Row by row, the copied row is the row computed up front. */
  lemma EnrichedRow(records: seq<RequestRecord>, earlier: int -> Report, first: Option<Meta>,
                    timing: int -> Report, meta: Meta, k: nat)
    requires k < |Levels(records)|
    ensures RowsMatch(AllStats(records, earlier, first)[k], AllStats(records, timing, Some(meta))[k], timing, meta)
    ensures AllStats(records, timing, Some(meta))[k].contaminated
         == AnyTaint(AllStats(records, earlier, first)[..k + 1], timing)
  {
    TaintPrefix(records, earlier, first, timing, k + 1);
  }

  ghost predicate RowsMatch(plain: LevelStats, rich: LevelStats, timing: int -> Report, meta: Meta) {
    rich == Enriched(plain, rich.contaminated, timing(plain.concurrency), meta)
  }

  lemma {:induction false} MatchingRows(plain: seq<LevelStats>, rich: seq<LevelStats>, timing: int -> Report,
                                        meta: Meta, k: nat)
    requires |plain| == |rich| && k <= |plain|
    requires forall j :: 0 <= j < |plain| ==> RowsMatch(plain[j], rich[j], timing, meta)
    requires forall j :: 0 <= j < |plain| ==> rich[j].contaminated == AnyTaint(plain[..j + 1], timing)
    ensures EnrichAll(plain[..k], timing, meta) == rich[..k]
  {
    if k > 0 {
      MatchingRows(plain, rich, timing, meta, k - 1);
      assert plain[..k][..k - 1] == plain[..k - 1];
      var copied := Enriched(plain[k - 1], AnyTaint(plain[..k], timing), timing(plain[k - 1].concurrency), meta);
      assert RowsMatch(plain[k - 1], rich[k - 1], timing, meta);
      assert rich[k - 1].contaminated == AnyTaint(plain[..k - 1 + 1], timing);
      assert copied == rich[k - 1];
      PrefixGrows(rich, k - 1, copied);
    }
  }

  lemma {:induction false} NoneMissing(sorted: seq<LevelStats>, records: seq<RequestRecord>)
    requires forall k :: 0 <= k < |sorted| ==> sorted[k].concurrency in Levels(records)
    ensures FirstMissing(sorted, records).None?
  {
    if sorted != [] {
      NoneMissing(sorted[1..], records);
    }
  }

  /**
   * For every record list and metadata, enriching statistics later gives exactly the statistics
   * computed with the metadata up front: every timing field, contamination flag and injector entry,
   * level by level, whatever parameters or other metadata they were first computed with.
   */
  lemma EnrichLaterIsEnrichNow(records: seq<RequestRecord>, p: Params, first: Option<Meta>, q: Params, meta: Meta)
    ensures WithRunTiming(Aggregated(records, p, first), Some(meta)) == Ok(Aggregated(records, q, Some(meta)))
  {
    var plain := TimingsOf(records, Effective(p, first));
    var timing := TimingsOf(records, ParamsOf(meta));
    if records == [] {
      assert AllStats(records, plain, first) == [] && AllStats(records, timing, Some(meta)) == [];
    } else if first == Some(meta) {
      EnrichIsIdempotent(records, timing, meta);
    } else {
      FlattenIsRegrouped(records, plain, first);
      var others := Flatten(AllStats(records, plain, first));
      RegroupedTiming(others, records, ParamsOf(meta));
      EnrichedRows(records, plain, first, timing, TimingsOf(others, ParamsOf(meta)), meta);
      EnrichFromFacts(AllStats(records, plain, first), AllStats(records, timing, Some(meta)), first, meta);
    }
  }

  /** The enriching loop reads the timing of the flattened records; that is the same timing. */
  lemma EnrichedRows(records: seq<RequestRecord>, earlier: int -> Report, first: Option<Meta>,
                     timing: int -> Report, again: int -> Report, meta: Meta)
    requires SameTiming(again, timing)
    ensures EnrichAll(AllStats(records, earlier, first), again, meta) == AllStats(records, timing, Some(meta))
    ensures SortBy(AllStats(records, earlier, first), ByLevel()) == AllStats(records, earlier, first)
    ensures forall k :: 0 <= k < |AllStats(records, earlier, first)| ==>
              AllStats(records, earlier, first)[k].meta == first
  {
    var plain, rich := AllStats(records, earlier, first), AllStats(records, timing, Some(meta));
    StatsShape(records, earlier, first);
    AscendingStays(plain, ByLevel());
    forall k | 0 <= k < |plain|
      ensures RowsMatch(plain[k], rich[k], timing, meta) && rich[k].contaminated == AnyTaint(plain[..k + 1], timing)
    {
      EnrichedRow(records, earlier, first, timing, meta, k);
    }
    MatchingRows(plain, rich, timing, meta, |plain|);
    assert plain[..|plain|] == plain && rich[..|plain|] == rich;
    EnrichSame(plain, again, timing, meta);
  }

  lemma {:induction false} EnrichSame(sorted: seq<LevelStats>, t: int -> Report, u: int -> Report, meta: Meta)
    requires SameTiming(t, u)
    ensures AnyTaint(sorted, t) == AnyTaint(sorted, u) && EnrichAll(sorted, t, meta) == EnrichAll(sorted, u, meta)
  {
    if sorted != [] {
      EnrichSame(sorted[..|sorted| - 1], t, u, meta);
    }
  }

  lemma {:induction false} EnrichFromFacts(plain: seq<LevelStats>, rich: seq<LevelStats>, first: Option<Meta>,
                                           meta: Meta)
    requires plain != [] && Flatten(plain) != []
    requires first != Some(meta) && forall k :: 0 <= k < |plain| ==> plain[k].meta == first
    requires SortBy(plain, ByLevel()) == plain
    requires EnrichAll(plain, TimingsOf(Flatten(plain), ParamsOf(meta)), meta) == rich
    requires forall k :: 0 <= k < |plain| ==> plain[k].concurrency in Levels(Flatten(plain))
    ensures WithRunTiming(plain, Some(meta)) == Ok(rich)
  {
    NoneMissing(plain, Flatten(plain));
    assert plain[0].meta != Some(meta);
  }

  lemma FlattenIsRegrouped(records: seq<RequestRecord>, timing: int -> Report, first: Option<Meta>)
    requires records != []
    ensures var stats := AllStats(records, timing, first);
            && Regrouped(Flatten(stats), records)
            && stats != [] && Flatten(stats) != []
            && forall k :: 0 <= k < |stats| ==> stats[k].concurrency in Levels(Flatten(stats))
  {
    var stats := AllStats(records, timing, first);
    var others := Flatten(stats);
    forall d: int
      ensures Filter(others, OfLevel(d)) == Filter(records, OfLevel(d))
    {
      FlattenReadsTheSame(records, timing, first, d);
    }
    RegroupedTiming(others, records, Params(None, None, map[], None));
    LevelsAreSorted(records);
    assert records[0].concurrency in Levels(records);
    forall k | 0 <= k < |stats|
      ensures stats[k].concurrency in Levels(others)
    {
      assert Levels(records)[k] in Levels(records);
    }
  }

  /** Enriching twice with the same metadata changes nothing the second time. */
  lemma EnrichIsIdempotent(records: seq<RequestRecord>, timing: int -> Report, meta: Meta)
    ensures WithRunTiming(AllStats(records, timing, Some(meta)), Some(meta))
         == Ok(AllStats(records, timing, Some(meta)))
  {
    StatsShape(records, timing, Some(meta));
  }

  /** Contamination only travels forward, and a row's percentiles are ordered. */
  lemma RowsAreOrdered(records: seq<RequestRecord>, timing: int -> Report, meta: Option<Meta>, i: nat, j: nat)
    requires i <= j < |Levels(records)|
    ensures var stats := AllStats(records, timing, meta);
            && (stats[i].contaminated ==> stats[j].contaminated)
            && (stats[i].p50.Some? <==> stats[i].successfulN > 0)
            && stats[i].p50.Some? == stats[i].p95.Some? == stats[i].p99.Some?
            && (stats[i].p50.Some? ==> stats[i].p50.value <= stats[i].p95.value <= stats[i].p99.value)
  {
    LevelsAreSorted(records);
    var rows := Filter(records, OfLevel(Levels(records)[i]));
    assert Levels(records)[i] <= Levels(records)[j];
    ReportedLatencies(rows);
    var latencies := Reported(rows, TotalMs());
    if latencies != [] {
      PctMonotoneInP(latencies, 50, 95);
      PctMonotoneInP(latencies, 95, 99);
    }
  }

  lemma {:induction false} ReportedLatencies(rows: seq<RequestRecord>)
    ensures |Reported(rows, TotalMs())| == Count(rows, IsOk())
  {
    if rows != [] {
      ReportedLatencies(rows[..|rows| - 1]);
    }
  }
}
