/** kneepoint/analyze/timing.py: the one-pass clock, throughput and closed-loop analysis. */
module Timing {
  // `Inspect` and `Finish` say what one level's report is, as functions of that level's own records in
  // their order; `AnalyzeTiming` is the pass over the interleaved list that fills one mutable
  // accumulator per level and ends with exactly those reports. An infinity that means "nothing seen yet"
  // is `None`.

  import opened Basics
  import opened Records
  import opened Grouping

  const CLOCK_GAP_S := 1.0

  datatype Params = Params(
    hold: Option<real>,
    thinkMs: Option<(int, int)>,
    levelStarts: map<int, real>,
    levelStatus: Option<map<int, RunStatus>>)
  {
    function ThinkS(): (result: Option<real>) {
      if thinkMs.None? then None else Some((thinkMs.value.0 + thinkMs.value.1) as real / 2000.0)
    }

    function MaxThinkS(): (result: Option<real>) {
      if thinkMs.None? then None else Some(thinkMs.value.1 as real / 1000.0)
    }
  }

  datatype Source = Monotonic | WallFallback

  datatype Window = Observed | Steady

  /** The published fields of a level. */
  datatype Report = Report(
    source: Source,
    throughput: Option<real>,
    steadyThroughput: Option<real>,
    steadyCompletions: nat,
    window: Option<Window>,
    successes: nat,
    scalingThroughput: Option<real>,
    littleN: Option<real>,
    judged: bool,
    countResolution: Option<real>,
    meanResponse: Option<real>,
    littleGap: Option<real>,
    littleResolution: Option<real>,
    stallThreshold: Option<real>,
    throughputBound: Option<real>,
    boundResolution: Option<real>,
    estimatorProblem: bool,
    suspectedStall: bool,
    clockAnomaly: bool,
    exactClockStep: bool,
    continuityGap: bool,
    maxContinuityGap: real)

  const BLANK := Report(WallFallback, None, None, 0, None, 0, None, None, false, None, None, None, None, None,
                        None, None, false, false, false, false, false, 0.0)

  // ----- the per-record visit

  datatype Acc = Acc(
    rows: seq<RequestRecord>,
    successful: nat,
    responseTotal: real,
    wallMin: Option<real>,
    wallMax: Option<real>,
    monoMin: Option<real>,
    monoMax: Option<real>,
    offsetMin: Option<real>,
    offsetMax: Option<real>,
    previousEnd: map<string, (real, int, bool)>,
    lastTurn: map<string, int>,
    maxPoolGap: Option<real>,
    multipleTurns: bool,
    missingMonotonic: bool,
    continuityGap: bool,
    maxContinuityGap: real)

  const EMPTY := Acc([], 0, 0.0, None, None, None, None, None, None, map[], map[], None, false, false, false, 0.0)

  function Lower(a: Option<real>, x: real): (r: Option<real>) {
    Some(if a.None? then x else MinReal(a.value, x))
  }

  function Upper(a: Option<real>, x: real): (r: Option<real>) {
    Some(if a.None? then x else MaxReal(a.value, x))
  }

  /** How long after the previous turn's end this turn started, beyond any think time, if that says anything. */
  function SessionGap(a: Acc, r: RequestRecord, maxThink: Option<real>): (result: Option<real>) {
    if r.sessionId in a.previousEnd && r.attempt == 1 && maxThink.Some?
       && r.turn > a.previousEnd[r.sessionId].1 && a.previousEnd[r.sessionId].2
    then Some(r.startedAt - a.previousEnd[r.sessionId].0 - maxThink.value)
    else None
  }

  /** The clocks of one record: monotonic extremes and the offset between the two clocks. */
  function VisitClocks(a: Acc, r: RequestRecord): (acc: Acc) {
    match r.startedMonotonic
    case None => a.(missingMonotonic := true)
    case Some(mono) => a.(
      monoMin := Lower(a.monoMin, mono),
      monoMax := Upper(a.monoMax, mono + r.Seconds()),
      offsetMin := Lower(a.offsetMin, r.startedAt - mono),
      offsetMax := Upper(a.offsetMax, r.startedAt - mono))
  }

  /** The gaps before one record: in its session, and in the pool after every known completion. */
  function VisitGaps(a: Acc, r: RequestRecord, maxThink: Option<real>): (acc: Acc) {
    var gap := SessionGap(a, r, maxThink);
    a.(maxContinuityGap := if gap.Some? then MaxReal(a.maxContinuityGap, gap.value) else a.maxContinuityGap,
       continuityGap := a.continuityGap || (gap.Some? && gap.value > CLOCK_GAP_S),
       maxPoolGap := if a.wallMax.Some? && r.attempt == 1 then Upper(a.maxPoolGap, r.startedAt - a.wallMax.value)
                     else a.maxPoolGap)
  }

  /** The rows, totals and wall extremes. */
  function VisitTotals(a: Acc, r: RequestRecord): (acc: Acc) {
    a.(rows := a.rows + [r],
       successful := a.successful + (if r.ok then 1 else 0),
       responseTotal := a.responseTotal + r.Seconds(),
       wallMin := Lower(a.wallMin, r.startedAt),
       wallMax := Upper(a.wallMax, r.startedAt + r.Seconds()))
  }

  /** What is remembered of the record's session. */
  function VisitSession(a: Acc, r: RequestRecord): (acc: Acc) {
    a.(previousEnd := a.previousEnd[r.sessionId := (r.startedAt + r.Seconds(), r.turn, r.ok)],
       lastTurn := a.lastTurn[r.sessionId :=
         MaxInt(r.turn, if r.sessionId in a.lastTurn then a.lastTurn[r.sessionId] else 0)],
       multipleTurns := a.multipleTurns || r.turn > 0)
  }

  function Inspect(a: Acc, r: RequestRecord, maxThink: Option<real>): (acc: Acc) {
    VisitSession(VisitTotals(VisitGaps(VisitClocks(a, r), r, maxThink), r), r)
  }

  function InspectAll(rows: seq<RequestRecord>, maxThink: Option<real>): (acc: Acc) {
    if rows == [] then EMPTY else Inspect(InspectAll(rows[..|rows| - 1], maxThink), rows[|rows| - 1], maxThink)
  }

  // ----- what the accumulators mean

  ghost predicate IsLeast(x: Option<real>, values: seq<real>) {
    && (x.None? <==> values == [])
    && (x.Some? ==> x.value in values && forall i :: 0 <= i < |values| ==> x.value <= values[i])
  }

  ghost predicate IsGreatest(x: Option<real>, values: seq<real>) {
    && (x.None? <==> values == [])
    && (x.Some? ==> x.value in values && forall i :: 0 <= i < |values| ==> values[i] <= x.value)
  }

  function StartOf(): (f: RequestRecord -> real) {
    (r: RequestRecord) => r.startedAt
  }

  function EndOf(): (f: RequestRecord -> real) {
    (r: RequestRecord) => r.startedAt + r.Seconds()
  }

  function SecondsOf(): (f: RequestRecord -> real) {
    (r: RequestRecord) => r.Seconds()
  }

  function Column(rows: seq<RequestRecord>, f: RequestRecord -> real): (c: seq<real>)
    ensures |c| == |rows| && forall i :: 0 <= i < |rows| ==> c[i] == f(rows[i])
  {
    if rows == [] then [] else Column(rows[..|rows| - 1], f) + [f(rows[|rows| - 1])]
  }

  lemma LowerIsLeast(x: Option<real>, values: seq<real>, y: real)
    requires IsLeast(x, values)
    ensures IsLeast(Lower(x, y), values + [y])
  {
    assert (values + [y])[|values|] == y;
    if x.Some? {
      var i :| 0 <= i < |values| && values[i] == x.value;
      assert (values + [y])[i] == x.value;
    }
  }

  lemma UpperIsGreatest(x: Option<real>, values: seq<real>, y: real)
    requires IsGreatest(x, values)
    ensures IsGreatest(Upper(x, y), values + [y])
  {
    assert (values + [y])[|values|] == y;
    if x.Some? {
      var i :| 0 <= i < |values| && values[i] == x.value;
      assert (values + [y])[i] == x.value;
    }
  }

  lemma VisitKeepsRows(a: Acc, r: RequestRecord, maxThink: Option<real>)
    ensures Inspect(a, r, maxThink).rows == a.rows + [r]
  {
  }

  /** One pass keeps the rows in order. */
  lemma {:induction false} OnePassRows(rows: seq<RequestRecord>, maxThink: Option<real>)
    ensures InspectAll(rows, maxThink).rows == rows
  {
    if rows != [] {
      var rs, r := rows[..|rows| - 1], rows[|rows| - 1];
      OnePassRows(rs, maxThink);
      VisitKeepsRows(InspectAll(rs, maxThink), r, maxThink);
      assert rs + [r] == rows;
    }
  }

  /** One pass leaves the true counts and totals of the rows it visited. */
  lemma {:induction false} OnePassTotals(rows: seq<RequestRecord>, maxThink: Option<real>)
    ensures InspectAll(rows, maxThink).successful == Count(rows, IsOk())
    ensures InspectAll(rows, maxThink).responseTotal == SumOf(rows, SecondsOf())
  {
    if rows != [] {
      OnePassTotals(rows[..|rows| - 1], maxThink);
      VisitExtends(InspectAll(rows[..|rows| - 1], maxThink), rows[|rows| - 1], maxThink);
    }
  }

  /** One pass leaves the earliest start of the rows it visited ... */
  lemma {:induction false} OnePassEarliest(rows: seq<RequestRecord>, maxThink: Option<real>)
    ensures IsLeast(InspectAll(rows, maxThink).wallMin, Column(rows, StartOf()))
  {
    if rows != [] {
      var rs, r := rows[..|rows| - 1], rows[|rows| - 1];
      var a := InspectAll(rs, maxThink);
      OnePassEarliest(rs, maxThink);
      VisitExtremes(a, r, maxThink);
      LowerIsLeast(a.wallMin, Column(rs, StartOf()), r.startedAt);
    }
  }

  /** ... and their latest end. */
  lemma {:induction false} OnePassLatest(rows: seq<RequestRecord>, maxThink: Option<real>)
    ensures IsGreatest(InspectAll(rows, maxThink).wallMax, Column(rows, EndOf()))
  {
    if rows != [] {
      var rs, r := rows[..|rows| - 1], rows[|rows| - 1];
      var a := InspectAll(rs, maxThink);
      OnePassLatest(rs, maxThink);
      VisitExtremes(a, r, maxThink);
      UpperIsGreatest(a.wallMax, Column(rs, EndOf()), r.startedAt + r.Seconds());
    }
  }

  lemma VisitExtremes(a: Acc, r: RequestRecord, maxThink: Option<real>)
    ensures Inspect(a, r, maxThink).wallMin == Lower(a.wallMin, r.startedAt)
    ensures Inspect(a, r, maxThink).wallMax == Upper(a.wallMax, r.startedAt + r.Seconds())
  {
  }

  lemma VisitExtends(a: Acc, r: RequestRecord, maxThink: Option<real>)
    ensures var b := Inspect(a, r, maxThink);
            && b.rows == a.rows + [r]
            && b.successful == a.successful + (if r.ok then 1 else 0)
            && b.responseTotal == a.responseTotal + r.Seconds()
            && b.wallMin == Lower(a.wallMin, r.startedAt)
            && b.wallMax == Upper(a.wallMax, r.startedAt + r.Seconds())
            && b.missingMonotonic == (a.missingMonotonic || r.startedMonotonic.None?)
            && (r.startedMonotonic.Some? ==>
                  (&& b.monoMin == Lower(a.monoMin, r.startedMonotonic.value)
                   && b.monoMax == Upper(a.monoMax, r.startedMonotonic.value + r.Seconds())))
            && (r.startedMonotonic.None? ==> b.monoMin == a.monoMin && b.monoMax == a.monoMax)
  {
  }

  ghost predicate AllStamped(rows: seq<RequestRecord>) {
    forall i :: 0 <= i < |rows| ==> rows[i].startedMonotonic.Some?
  }

  lemma AllStampedSnoc(rows: seq<RequestRecord>)
    requires rows != []
    ensures AllStamped(rows) <==> AllStamped(rows[..|rows| - 1]) && rows[|rows| - 1].startedMonotonic.Some?
  {
    var rs := rows[..|rows| - 1];
    if AllStamped(rs) {
      forall i | 0 <= i < |rs|
        ensures rows[i].startedMonotonic.Some?
      {
        assert rs[i].startedMonotonic.Some?;
      }
    }
  }

  /** The monotonic clock is used exactly when every row carries a monotonic start. */
  lemma {:induction false} MonotonicNeedsAllRows(rows: seq<RequestRecord>, maxThink: Option<real>)
    ensures UsesMonotonic(InspectAll(rows, maxThink)) <==> rows != [] && AllStamped(rows)
    ensures InspectAll(rows, maxThink).missingMonotonic <==> !AllStamped(rows)
  {
    if rows != [] {
      var n := |rows| - 1;
      MonotonicNeedsAllRows(rows[..n], maxThink);
      VisitExtends(InspectAll(rows[..n], maxThink), rows[n], maxThink);
      AllStampedSnoc(rows);
    }
  }

  // ----- a level's report

  predicate UsesMonotonic(a: Acc) {
    !a.missingMonotonic && a.monoMin.Some?
  }

  function RowStart(r: RequestRecord, monotonic: bool): (x: real) {
    if monotonic && r.startedMonotonic.Some? then r.startedMonotonic.value else r.startedAt
  }

  function RowEnd(r: RequestRecord, monotonic: bool): (x: real) {
    RowStart(r, monotonic) + r.Seconds()
  }

  function OrZeroReal(x: Option<real>): (result: real) {
    if x.Some? then x.value else 0.0
  }

  function First(a: Acc): (x: real) {
    OrZeroReal(if UsesMonotonic(a) then a.monoMin else a.wallMin)
  }

  function Last(a: Acc): (x: real) {
    OrZeroReal(if UsesMonotonic(a) then a.monoMax else a.wallMax)
  }

  /** Completion inside the half-open window. */
  function Completes(low: real, high: real, monotonic: bool): (p: RequestRecord -> bool) {
    (r: RequestRecord) => low <= RowEnd(r, monotonic) < high
  }

  function CompletesOk(low: real, high: real, monotonic: bool): (p: RequestRecord -> bool) {
    (r: RequestRecord) => low <= RowEnd(r, monotonic) < high && r.ok
  }

  /** Completions after which the user thinks: a success that is not its session's last turn. */
  function CompletesThinking(low: real, high: real, monotonic: bool, lastTurn: map<string, int>)
    : (p: RequestRecord -> bool)
  {
    (r: RequestRecord) =>
      low <= RowEnd(r, monotonic) < high && r.ok && r.sessionId in lastTurn && r.turn < lastTurn[r.sessionId]
  }

  function ResponseIn(low: real, high: real, monotonic: bool): (f: RequestRecord -> real) {
    (r: RequestRecord) => if low <= RowEnd(r, monotonic) < high then r.Seconds() else 0.0
  }

  /** Continuity of the pool and of each session, and the clock verdict that follows. */
  function WithClocks(a: Acc, p: Params): (report: Report) {
    var poolThink := if a.multipleTurns then p.MaxThinkS() else Some(0.0);
    var known := poolThink.Some? && a.maxPoolGap.Some?;
    var gap := if known then a.maxPoolGap.value - poolThink.value else 0.0;
    var continuity := a.continuityGap || (known && gap > CLOCK_GAP_S);
    var step := !a.missingMonotonic && a.offsetMin.Some? && a.offsetMax.Some?
                && a.offsetMax.value - a.offsetMin.value > CLOCK_GAP_S;
    BLANK.(
      source := if UsesMonotonic(a) then Monotonic else WallFallback,
      maxContinuityGap := if known then MaxReal(a.maxContinuityGap, gap) else a.maxContinuityGap,
      continuityGap := continuity,
      exactClockStep := step,
      clockAnomaly := step || continuity,
      throughput := if Last(a) > First(a) then Some(|a.rows| as real / (Last(a) - First(a))) else None)
  }

  function LevelStart(a: Acc, c: int, p: Params): (x: real) {
    if UsesMonotonic(a) && c in p.levelStarts then p.levelStarts[c] else First(a)
  }

  function Low(a: Acc, c: int, p: Params): (x: real)
    requires p.hold.Some?
  {
    LevelStart(a, c, p) + p.hold.value / 3.0
  }

  function High(a: Acc, c: int, p: Params): (x: real)
    requires p.hold.Some?
  {
    LevelStart(a, c, p) + p.hold.value * 4.0 / 5.0
  }

  /** Half the spread of the five counts taken as the window slides by up to `shift` either way, at least one. */
  function CountResolution(rows: seq<RequestRecord>, low: real, high: real, shift: real, monotonic: bool): (x: real) {
    var n0 := Count(rows, Completes(low - shift, high - shift, monotonic));
    var n1 := Count(rows, Completes(low - shift / 2.0, high - shift / 2.0, monotonic));
    var n2 := Count(rows, Completes(low, high, monotonic));
    var n3 := Count(rows, Completes(low + shift / 2.0, high + shift / 2.0, monotonic));
    var n4 := Count(rows, Completes(low + shift, high + shift, monotonic));
    MaxReal(1.0, (Max5(n0, n1, n2, n3, n4) - Min5(n0, n1, n2, n3, n4)) as real / 2.0)
  }

  function Max5(a: int, b: int, c: int, d: int, e: int): (n: int) {
    MaxInt(a, MaxInt(b, MaxInt(c, MaxInt(d, e))))
  }

  function Min5(a: int, b: int, c: int, d: int, e: int): (n: int) {
    -Max5(-a, -b, -c, -d, -e)
  }

  function WithCounts(before: Report, c: int, width: real, k: nat, ok: nat, total: real): (report: Report)
    requires width > 0.0
  {
    before.(
      steadyCompletions := k,
      steadyThroughput := Some(k as real / width),
      window := Some(Steady),
      successes := ok,
      scalingThroughput := Some(ok as real / width),
      littleN := if k >= 2 * c then Some(total / width) else before.littleN)
  }

  /** N / X - R - Z: the gap in Little's law for a closed loop with `think` seconds per thinking completion. */
  function LawGap(c: int, width: real, k: nat, total: real, think: real, thinking: nat): (x: real)
    requires width > 0.0 && k > 0
  {
    c as real / (k as real / width) - total / k as real - think * thinking as real / k as real
  }

  function LittleResolution(c: int, width: real, k: nat, resolution: real): (x: real)
    requires width > 0.0 && k > 0
  {
    c as real / (k as real / width) / k as real * resolution
  }

  function WithLaw(r: Report, c: int, width: real, k: nat, total: real, resolution: real,
                   think: Option<real>, thinking: nat): (report: Report)
    requires width > 0.0 && k > 0
  {
    var mean := total / k as real;
    var little := LittleResolution(c, width, k, resolution);
    var threshold := MaxReal(0.05, MaxReal(0.05 * mean, 2.0 * little));
    var judged := k >= 2 * c;
    var t := r.(meanResponse := Some(mean), judged := judged, countResolution := Some(resolution),
                littleResolution := Some(little), stallThreshold := Some(threshold));
    if think.None? || !judged then t
    else
      var gap := LawGap(c, width, k, total, think.value, thinking);
      t.(littleGap := Some(gap), suspectedStall := Abs(gap) > threshold)
  }

  /** How far the steady window is slid: half a response, and no more than a fifth of the hold. */
  function ShiftOf(total: real, k: nat, hold: real): (x: real)
    requires k > 0
  {
    MinReal(total / k as real / 2.0, hold / 5.0)
  }

  /** The steady window's counts, response mean and Little's-law gap. */
  function WithSteady(before: Report, rows: seq<RequestRecord>, lastTurn: map<string, int>, c: int, p: Params,
                      low: real, high: real, monotonic: bool): (report: Report)
    requires p.hold.Some? && low < high
  {
    var k := Count(rows, Completes(low, high, monotonic));
    var total := SumOf(rows, ResponseIn(low, high, monotonic));
    var ok := Count(rows, CompletesOk(low, high, monotonic));
    var r := WithCounts(before, c, high - low, k, ok, total);
    if k == 0 then r
    else
      WithLaw(r, c, high - low, k, total,
              CountResolution(rows, low, high, ShiftOf(total, k, p.hold.value), monotonic), p.ThinkS(),
              Count(rows, CompletesThinking(low, high, monotonic, lastTurn)))
  }

  /** Without a hold time the whole observed span is the window. */
  function WithObserved(r: Report, a: Acc, c: int, width: real): (report: Report) {
    if width <= 0.0 then r
    else
      r.(window := Some(Observed), successes := a.successful,
         scalingThroughput := Some(a.successful as real / width),
         littleN := if |a.rows| >= 2 * c then Some(a.responseTotal / width) else r.littleN)
  }

  /** A level's report from its accumulator, before the run-wide response floor is known. */
  function Finish(a: Acc, c: int, p: Params): (report: Report) {
    var r := WithClocks(a, p);
    if p.levelStatus.Some? && !(c in p.levelStatus.value && p.levelStatus.value[c] == Completed) then r
    else if p.hold.None? then WithObserved(r, a, c, Last(a) - First(a))
    else if p.hold.value <= 0.0 then r
    else if p.levelStatus.None? && Last(a) < High(a, c, p) then r
    else WithSteady(r, a.rows, a.lastTurn, c, p, Low(a, c, p), High(a, c, p), UsesMonotonic(a))
  }

  /** The bound the lowest level's mean response puts on a level's throughput. */
  function WithBound(r: Report, c: int, floor: Option<real>): (report: Report) {
    if floor.None? || floor.value <= 0.0 then r
    else
      var bound := c as real / floor.value;
      var resolution :=
        if r.judged && r.steadyThroughput.Some? && r.countResolution.Some? && r.steadyCompletions > 0 then
          Some(2.0 * r.steadyThroughput.value * r.countResolution.value / r.steadyCompletions as real)
        else r.boundResolution;
      r.(throughputBound := Some(bound), boundResolution := resolution,
         estimatorProblem := r.steadyThroughput.Some? && resolution.Some?
                             && r.steadyThroughput.value - bound > resolution.value)
  }

  /** One level on its own: its rows, then its report. */
  function LevelOnly(records: seq<RequestRecord>, c: int, p: Params): (report: Report) {
    Finish(InspectAll(Filter(records, OfLevel(c)), p.MaxThinkS()), c, p)
  }

  /** The response floor is the mean of the lowest level. */
  function Floor(records: seq<RequestRecord>, p: Params): (r: Option<real>) {
    if Levels(records) == [] then None else LevelOnly(records, Levels(records)[0], p).meanResponse
  }

  /** The report of level `c` in a whole run. */
  function TimingOf(records: seq<RequestRecord>, c: int, p: Params): (report: Report) {
    WithBound(LevelOnly(records, c, p), c, Floor(records, p))
  }

  /** The analysis depends only on each level's own record order, not on how levels are interleaved. */
  lemma InterleavingIsIrrelevant(rs: seq<RequestRecord>, ts: seq<RequestRecord>, c: int, p: Params)
    requires forall d: int :: Filter(rs, OfLevel(d)) == Filter(ts, OfLevel(d))
    ensures Levels(rs) == Levels(ts)
    ensures TimingOf(rs, c, p) == TimingOf(ts, c, p)
  {
    LevelsAreSorted(rs);
    LevelsAreSorted(ts);
    forall d: int
      ensures d in Levels(rs) <==> d in Levels(ts)
    {
      LevelHasGroup(rs, d);
      LevelHasGroup(ts, d);
    }
    AscendingUnique(Levels(rs), Levels(ts));
  }

  // ----- the mutable accumulator

  /** One level's accumulator and report, updated in place. */
  class LevelTiming {
    const concurrency: int
    var report: Report
    var rows: seq<RequestRecord>
    var successful: nat
    var responseTotal: real
    var wallMin: Option<real>
    var wallMax: Option<real>
    var monoMin: Option<real>
    var monoMax: Option<real>
    var offsetMin: Option<real>
    var offsetMax: Option<real>
    var previousEnd: map<string, (real, int, bool)>
    var lastTurn: map<string, int>
    var maxPoolGap: Option<real>
    var multipleTurns: bool
    var missingMonotonic: bool
    var continuityGap: bool
    var maxContinuityGap: real

    function Value(): (acc: Acc)
      reads this
    {
      Acc(rows, successful, responseTotal, wallMin, wallMax, monoMin, monoMax, offsetMin, offsetMax,
          previousEnd, lastTurn, maxPoolGap, multipleTurns, missingMonotonic, continuityGap, maxContinuityGap)
    }

    constructor (concurrency: int)
      ensures this.concurrency == concurrency && Value() == EMPTY && report == BLANK
    {
      this.concurrency := concurrency;
      report := BLANK;
      rows, successful, responseTotal := [], 0, 0.0;
      wallMin, wallMax, monoMin, monoMax, offsetMin, offsetMax := None, None, None, None, None, None;
      previousEnd, lastTurn, maxPoolGap := map[], map[], None;
      multipleTurns, missingMonotonic, continuityGap, maxContinuityGap := false, false, false, 0.0;
    }

    /** `_inspect_record`. */
    method InspectRecord(r: RequestRecord, maxThink: Option<real>)
      modifies this
      ensures Value() == Inspect(old(Value()), r, maxThink) && report == old(report)
    {
      SeeClocks(r);
      SeeGaps(r, maxThink);
      SeeTotals(r);
      SeeSession(r);
    }

    method SeeClocks(r: RequestRecord)
      modifies this
      ensures Value() == VisitClocks(old(Value()), r) && report == old(report)
    {
      if r.startedMonotonic.None? {
        missingMonotonic := true;
      } else {
        var mono := r.startedMonotonic.value;
        var offset := r.startedAt - mono;
        monoMin, monoMax := Lower(monoMin, mono), Upper(monoMax, mono + r.Seconds());
        offsetMin, offsetMax := Lower(offsetMin, offset), Upper(offsetMax, offset);
      }
    }

    method SeeGaps(r: RequestRecord, maxThink: Option<real>)
      modifies this
      ensures Value() == VisitGaps(old(Value()), r, maxThink) && report == old(report)
    {
      if r.sessionId in previousEnd {
        var previous := previousEnd[r.sessionId];
        if r.attempt == 1 && r.turn > previous.1 && previous.2 && maxThink.Some? {
          var gap := r.startedAt - previous.0 - maxThink.value;
          maxContinuityGap := MaxReal(maxContinuityGap, gap);
          if gap > CLOCK_GAP_S { continuityGap := true; }
        }
      }
      if wallMax.Some? && r.attempt == 1 {
        maxPoolGap := Upper(maxPoolGap, r.startedAt - wallMax.value);
      }
    }

    method SeeTotals(r: RequestRecord)
      modifies this
      ensures Value() == VisitTotals(old(Value()), r) && report == old(report)
    {
      var duration := r.Seconds();
      if r.ok { successful := successful + 1; }
      responseTotal := responseTotal + duration;
      wallMin, wallMax := Lower(wallMin, r.startedAt), Upper(wallMax, r.startedAt + duration);
      rows := rows + [r];
    }

    method SeeSession(r: RequestRecord)
      modifies this
      ensures Value() == VisitSession(old(Value()), r) && report == old(report)
    {
      previousEnd := previousEnd[r.sessionId := (r.startedAt + r.Seconds(), r.turn, r.ok)];
      lastTurn := lastTurn[r.sessionId :=
        MaxInt(r.turn, if r.sessionId in lastTurn then lastTurn[r.sessionId] else 0)];
      if r.turn > 0 { multipleTurns := true; }
    }

    /** The per-level half of the analysis, once every record has been visited. */
    method Conclude(p: Params)
      modifies this`report
      ensures report == Finish(Value(), concurrency, p)
    {
      report := Concluded(p);
    }

    method Concluded(p: Params) returns (r: Report)
      ensures r == Finish(Value(), concurrency, p)
    {
      var a := Value();
      r := WithClocks(a, p);
      if p.levelStatus.Some?
         && !(concurrency in p.levelStatus.value && p.levelStatus.value[concurrency] == Completed) {
        return;
      }
      if p.hold.None? {
        r := WithObserved(r, a, concurrency, Last(a) - First(a));
        return;
      }
      if p.hold.value <= 0.0 {
        return;
      }
      var low, high := Low(a, concurrency, p), High(a, concurrency, p);
      if p.levelStatus.None? && Last(a) < high {
        return;
      }
      r := SteadyReport(r, p, low, high, UsesMonotonic(a));
    }

    /** The loops over the level's own rows: completions in the steady window, then in the shifted windows. */
    method SteadyReport(r: Report, p: Params, low: real, high: real, monotonic: bool) returns (steady: Report)
      requires p.hold.Some? && low < high
      ensures steady == WithSteady(r, rows, lastTurn, concurrency, p, low, high, monotonic)
    {
      var k, ok, thinking, total := CountSteady(low, high, monotonic);
      steady := WithCounts(r, concurrency, high - low, k, ok, total);
      if k > 0 {
        steady := LawReport(steady, p, low, high, monotonic, k, total, thinking);
      }
    }

    method LawReport(r: Report, p: Params, low: real, high: real, monotonic: bool, k: nat, total: real, thinking: nat)
      returns (judged: Report)
      requires p.hold.Some? && low < high && k > 0 && k == Count(rows, Completes(low, high, monotonic))
      ensures judged == WithLaw(r, concurrency, high - low, k, total,
                                CountResolution(rows, low, high, ShiftOf(total, k, p.hold.value), monotonic),
                                p.ThinkS(), thinking)
    {
      var resolution := CountShifted(low, high, ShiftOf(total, k, p.hold.value), monotonic, k);
      judged := WithLaw(r, concurrency, high - low, k, total, resolution, p.ThinkS(), thinking);
    }

    method CountSteady(low: real, high: real, monotonic: bool)
      returns (k: nat, ok: nat, thinking: nat, total: real)
      ensures k == Count(rows, Completes(low, high, monotonic))
      ensures ok == Count(rows, CompletesOk(low, high, monotonic))
      ensures thinking == Count(rows, CompletesThinking(low, high, monotonic, lastTurn))
      ensures total == SumOf(rows, ResponseIn(low, high, monotonic))
    {
      k, ok, thinking, total := 0, 0, 0, 0.0;
      for i := 0 to |rows|
        invariant k == Count(rows[..i], Completes(low, high, monotonic))
        invariant ok == Count(rows[..i], CompletesOk(low, high, monotonic))
        invariant thinking == Count(rows[..i], CompletesThinking(low, high, monotonic, lastTurn))
        invariant total == SumOf(rows[..i], ResponseIn(low, high, monotonic))
      {
        var r := rows[i];
        assert rows[..i + 1][..i] == rows[..i];
        if low <= RowEnd(r, monotonic) < high {
          k := k + 1;
          total := total + r.Seconds();
          if r.ok {
            ok := ok + 1;
            if r.sessionId in lastTurn && r.turn < lastTurn[r.sessionId] {
              thinking := thinking + 1;
            }
          }
        }
      }
      assert rows[..|rows|] == rows;
    }

    method CountShifted(low: real, high: real, shift: real, monotonic: bool, k: nat) returns (resolution: real)
      requires k == Count(rows, Completes(low, high, monotonic))
      ensures resolution == CountResolution(rows, low, high, shift, monotonic)
    {
      var n0, n1, n3, n4 := 0, 0, 0, 0;
      ghost var p0 := Completes(low - shift, high - shift, monotonic);
      ghost var p1 := Completes(low - shift / 2.0, high - shift / 2.0, monotonic);
      ghost var p3 := Completes(low + shift / 2.0, high + shift / 2.0, monotonic);
      ghost var p4 := Completes(low + shift, high + shift, monotonic);
      for i := 0 to |rows|
        invariant n0 == Count(rows[..i], p0) && n1 == Count(rows[..i], p1)
        invariant n3 == Count(rows[..i], p3) && n4 == Count(rows[..i], p4)
      {
        n0 := CountEnd(i, n0, low - shift, high - shift, monotonic);
        n1 := CountEnd(i, n1, low - shift / 2.0, high - shift / 2.0, monotonic);
        n3 := CountEnd(i, n3, low + shift / 2.0, high + shift / 2.0, monotonic);
        n4 := CountEnd(i, n4, low + shift, high + shift, monotonic);
      }
      assert rows[..|rows|] == rows;
      resolution := MaxReal(1.0, (Max5(n0, n1, k, n3, n4) - Min5(n0, n1, k, n3, n4)) as real / 2.0);
    }

    /** `shifted[index] += low <= end < high` for one row. */
    method CountEnd(i: nat, n: nat, low: real, high: real, monotonic: bool) returns (n': nat)
      requires i < |rows| && n == Count(rows[..i], Completes(low, high, monotonic))
      ensures n' == Count(rows[..i + 1], Completes(low, high, monotonic))
    {
      assert rows[..i + 1][..i] == rows[..i];
      var end := RowEnd(rows[i], monotonic);
      n' := if low <= end < high then n + 1 else n;
    }

    /** The run-wide half: the bound from the lowest level's response floor. */
    method Bound(floor: Option<real>)
      modifies this`report
      ensures report == WithBound(old(report), concurrency, floor)
    {
      if floor.None? || floor.value <= 0.0 {
        return;
      }
      report := report.(throughputBound := Some(concurrency as real / floor.value));
      if report.judged && report.steadyThroughput.Some? && report.countResolution.Some?
         && report.steadyCompletions > 0 {
        report := report.(boundResolution := Some(
          2.0 * report.steadyThroughput.value * report.countResolution.value / report.steadyCompletions as real));
      }
      report := report.(estimatorProblem :=
        report.steadyThroughput.Some? && report.boundResolution.Some?
        && report.steadyThroughput.value - report.throughputBound.value > report.boundResolution.value);
    }
  }

  // ----- the pass over the interleaved records

  predicate Separate(levels: map<int, LevelTiming>) {
    forall c, d :: c in levels && d in levels && c != d ==> levels[c] != levels[d]
  }

  /** Each accumulator holds its own level's share of the records, in order. */
  ghost predicate Shares(levels: map<int, LevelTiming>, seen: seq<RequestRecord>, maxThink: Option<real>)
    reads levels.Values
  {
    forall c :: c in levels ==>
      levels[c].concurrency == c && levels[c].Value() == InspectAll(Filter(seen, OfLevel(c)), maxThink)
  }

  /** There is an accumulator for exactly the levels seen. */
  ghost predicate Covers(levels: map<int, LevelTiming>, seen: seq<RequestRecord>) {
    forall c :: c in levels <==> Filter(seen, OfLevel(c)) != []
  }

  lemma OneMoreRecord(seen: seq<RequestRecord>, r: RequestRecord, c: int, maxThink: Option<real>)
    ensures var before, after := Filter(seen, OfLevel(c)), Filter(seen + [r], OfLevel(c));
            if r.concurrency != c then after == before
            else after != []
                 && InspectAll(after, maxThink) == Inspect(InspectAll(before, maxThink), r, maxThink)
  {
    FilterSnoc(seen, r, OfLevel(c));
    if r.concurrency == c {
      var before := Filter(seen, OfLevel(c));
      assert (before + [r])[..|before|] == before;
    }
  }

  ghost predicate Within(levels: map<int, LevelTiming>, repr: set<LevelTiming>) {
    forall c :: c in levels ==> levels[c] in repr
  }

  /** `levels.setdefault(...)`. */
  method SetDefault(levels: map<int, LevelTiming>, ghost seen: seq<RequestRecord>, c: int, ghost maxThink: Option<real>,
                    ghost repr: set<LevelTiming>)
    returns (grown: map<int, LevelTiming>, ghost repr': set<LevelTiming>)
    requires Shares(levels, seen, maxThink) && Separate(levels) && Covers(levels, seen) && Within(levels, repr)
    ensures grown.Keys == levels.Keys + {c}
    ensures Shares(grown, seen, maxThink) && Separate(grown)
    ensures repr <= repr' && fresh(repr' - repr) && Within(grown, repr')
  {
    grown, repr' := levels, repr;
    if c !in levels {
      var level := new LevelTiming(c);
      grown, repr' := levels[c := level], repr + {level};
    }
  }

  /** The visit of one record by its level's accumulator. */
  method Visit(levels: map<int, LevelTiming>, ghost seen: seq<RequestRecord>, r: RequestRecord, maxThink: Option<real>)
    requires Shares(levels, seen, maxThink) && Separate(levels) && r.concurrency in levels
    modifies levels[r.concurrency]
    ensures Shares(levels, seen + [r], maxThink)
  {
    levels[r.concurrency].InspectRecord(r, maxThink);
    forall c | c in levels
      ensures levels[c].Value() == InspectAll(Filter(seen + [r], OfLevel(c)), maxThink)
    {
      OneMoreRecord(seen, r, c, maxThink);
      if c != r.concurrency {
        assert levels[c] != levels[r.concurrency];
      }
    }
  }

  lemma CoversMore(keys: set<int>, seen: seq<RequestRecord>, r: RequestRecord)
    requires forall c: int :: c in keys <==> c == r.concurrency || Filter(seen, OfLevel(c)) != []
    ensures forall c: int :: c in keys <==> Filter(seen + [r], OfLevel(c)) != []
  {
    forall c: int
      ensures c in keys <==> Filter(seen + [r], OfLevel(c)) != []
    {
      FilterSnoc(seen, r, OfLevel(c));
    }
  }

  /** One record of the pass. */
  method Admit(levels: map<int, LevelTiming>, ghost seen: seq<RequestRecord>, r: RequestRecord, maxThink: Option<real>,
               ghost repr: set<LevelTiming>)
    returns (grown: map<int, LevelTiming>, ghost repr': set<LevelTiming>)
    requires Shares(levels, seen, maxThink) && Separate(levels) && Covers(levels, seen) && Within(levels, repr)
    modifies repr
    ensures Shares(grown, seen + [r], maxThink) && Separate(grown) && Covers(grown, seen + [r])
    ensures repr <= repr' && fresh(repr' - repr) && Within(grown, repr')
  {
    grown, repr' := SetDefault(levels, seen, r.concurrency, maxThink, repr);
    CoversMore(grown.Keys, seen, r);
    Visit(grown, seen, r, maxThink);
  }

  method FirstPass(records: seq<RequestRecord>, maxThink: Option<real>)
    returns (levels: map<int, LevelTiming>, ghost repr: set<LevelTiming>)
    ensures Shares(levels, records, maxThink) && Separate(levels) && Covers(levels, records)
    ensures fresh(repr) && Within(levels, repr)
  {
    levels, repr := map[], {};
    for i := 0 to |records|
      invariant Shares(levels, records[..i], maxThink) && Separate(levels) && Covers(levels, records[..i])
      invariant fresh(repr) && Within(levels, repr)
    {
      levels, repr := Admit(levels, records[..i], records[i], maxThink, repr);
      assert records[..i + 1] == records[..i] + [records[i]];
    }
    assert records[..|records|] == records;
  }

  /** `for level in levels.values()`: conclude each one from its own accumulator. */
  method ConcludeAll(levels: map<int, LevelTiming>, ghost records: seq<RequestRecord>, p: Params,
                     ghost repr: set<LevelTiming>)
    requires Shares(levels, records, p.MaxThinkS()) && Separate(levels) && Within(levels, repr)
    modifies repr
    ensures forall c :: c in levels ==> levels[c].report == LevelOnly(records, c, p)
  {
    var todo := levels.Keys;
    while todo != {}
      invariant todo <= levels.Keys
      invariant Shares(levels, records, p.MaxThinkS())
      invariant forall c :: c in levels && c !in todo ==> levels[c].report == LevelOnly(records, c, p)
      decreases todo
    {
      var c := Pick(todo);
      levels[c].Conclude(p);
      todo := todo - {c};
    }
  }

  method BoundAll(levels: map<int, LevelTiming>, ghost records: seq<RequestRecord>, ghost p: Params,
                  floor: Option<real>, ghost repr: set<LevelTiming>)
    requires Separate(levels) && Within(levels, repr) && floor == Floor(records, p)
    requires forall c :: c in levels ==> levels[c].concurrency == c && levels[c].report == LevelOnly(records, c, p)
    modifies repr
    ensures forall c :: c in levels ==> levels[c].report == TimingOf(records, c, p)
  {
    var todo := levels.Keys;
    while todo != {}
      invariant todo <= levels.Keys
      invariant forall c :: c in todo ==> levels[c].report == LevelOnly(records, c, p)
      invariant forall c :: c in levels && c !in todo ==> levels[c].report == TimingOf(records, c, p)
      decreases todo
    {
      var c := Pick(todo);
      levels[c].Bound(floor);
      todo := todo - {c};
    }
  }

  lemma CoversLevels(keys: set<int>, records: seq<RequestRecord>)
    requires forall c :: c in keys <==> Filter(records, OfLevel(c)) != []
    ensures forall c :: c in keys <==> c in Levels(records)
  {
    forall c: int
      ensures c in keys <==> c in Levels(records)
    {
      LevelHasGroup(records, c);
    }
  }

  /** `min(levels)`. */
  method Lowest(keys: set<int>, ghost records: seq<RequestRecord>) returns (c: int)
    requires keys != {} && forall d :: d in keys <==> d in Levels(records)
    ensures c in keys && Levels(records) != [] && c == Levels(records)[0]
  {
    var sorted := SortedKeys(keys);
    LevelsAreSorted(records);
    AscendingUnique(sorted, Levels(records));
    ghost var some := AnyOf(keys);
    assert some in sorted;
    c := sorted[0];
    assert c in sorted;
  }

  /** The whole analysis: each level present has the report its own rows and the lowest level determine. */
  method AnalyzeTiming(records: seq<RequestRecord>, p: Params) returns (levels: map<int, LevelTiming>)
    ensures forall c :: c in levels <==> c in Levels(records)
    ensures forall c :: c in levels ==> fresh(levels[c]) && levels[c].report == TimingOf(records, c, p)
  {
    ghost var repr;
    levels, repr := FirstPass(records, p.MaxThinkS());
    CoversLevels(levels.Keys, records);
    ConcludeAll(levels, records, p, repr);
    if levels.Keys == {} {
      return;
    }
    var lowest := Lowest(levels.Keys, records);
    var floor := levels[lowest].report.meanResponse;
    BoundAll(levels, records, p, floor, repr);
  }
}
