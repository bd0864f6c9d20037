/**
 * What the clock verdicts of kneepoint/analyze/timing.py say about a level's rows, without the pass
 * that computes them: a clock step is two rows whose clock offsets differ by more than a second, and
 * a continuity gap is a turn that started too long after its session's previous answer.
 */
module Continuity {
  import opened Basics
  import opened Records
  import opened Timing

  // ----- the previous record of a session

  /** The latest of the rows that belongs to the session. */
  function LatestOf(rows: seq<RequestRecord>, id: string): (r: Option<RequestRecord>) {
    if rows == [] then None
    else if rows[|rows| - 1].sessionId == id then Some(rows[|rows| - 1])
    else LatestOf(rows[..|rows| - 1], id)
  }

  /** What is remembered of a row's session. */
  function Memory(r: RequestRecord): (result: (real, int, bool)) {
    (r.startedAt + r.totalMs / 1000.0, r.turn, r.ok)
  }

  lemma VisitMemory(a: Acc, r: RequestRecord, maxThink: Option<real>)
    ensures Inspect(a, r, maxThink).previousEnd == a.previousEnd[r.sessionId := Memory(r)]
  {
  }

  /** The memory of sessions is the latest row of each: when it ended, its turn, whether it was answered. */
  lemma {:induction false} PreviousIsLatest(rows: seq<RequestRecord>, maxThink: Option<real>, id: string)
    ensures var memory, latest := InspectAll(rows, maxThink).previousEnd, LatestOf(rows, id);
            (id in memory <==> latest.Some?) && (latest.Some? ==> memory[id] == Memory(latest.value))
  {
    if rows != [] {
      PreviousIsLatest(rows[..|rows| - 1], maxThink, id);
      VisitMemory(InspectAll(rows[..|rows| - 1], maxThink), rows[|rows| - 1], maxThink);
    }
  }

  // ----- continuity of sessions

  /** How long row `i` started after its session's previous answer, beyond any think time. */
  function GapBefore(rows: seq<RequestRecord>, i: nat, maxThink: Option<real>): (r: Option<real>)
    requires i < |rows|
  {
    var r, previous := rows[i], LatestOf(rows[..i], rows[i].sessionId);
    if previous.Some? && previous.value.ok && r.attempt == 1 && r.turn > previous.value.turn && maxThink.Some?
    then Some(r.startedAt - (previous.value.startedAt + previous.value.totalMs / 1000.0) - maxThink.value)
    else None
  }

  ghost predicate LateTurn(rows: seq<RequestRecord>, i: nat, maxThink: Option<real>)
    requires i < |rows|
  {
    GapBefore(rows, i, maxThink).Some? && GapBefore(rows, i, maxThink).value > 1.0
  }

  lemma GapIsRemembered(rows: seq<RequestRecord>, maxThink: Option<real>)
    requires rows != []
    ensures var n := |rows| - 1;
            SessionGap(VisitClocks(InspectAll(rows[..n], maxThink), rows[n]), rows[n], maxThink)
            == GapBefore(rows, n, maxThink)
  {
    var n := |rows| - 1;
    PreviousIsLatest(rows[..n], maxThink, rows[n].sessionId);
  }

  lemma VisitFlags(a: Acc, r: RequestRecord, maxThink: Option<real>)
    ensures var gap := SessionGap(VisitClocks(a, r), r, maxThink);
            Inspect(a, r, maxThink).continuityGap == (a.continuityGap || (gap.Some? && gap.value > CLOCK_GAP_S))
  {
  }

  /** The pass raises its continuity flag exactly when some turn of some session started late. */
  lemma {:induction false} ContinuityGapIff(rows: seq<RequestRecord>, maxThink: Option<real>)
    ensures InspectAll(rows, maxThink).continuityGap
       <==> exists i :: 0 <= i < |rows| && LateTurn(rows, i, maxThink)
  {
    if rows != [] {
      var n := |rows| - 1;
      ContinuityGapIff(rows[..n], maxThink);
      GapIsRemembered(rows, maxThink);
      VisitFlags(InspectAll(rows[..n], maxThink), rows[n], maxThink);
      EarlierTurns(rows, maxThink);
    }
  }

  lemma EarlierTurns(rows: seq<RequestRecord>, maxThink: Option<real>)
    requires rows != []
    ensures var n := |rows| - 1;
            (exists i :: 0 <= i < |rows| && LateTurn(rows, i, maxThink))
            <==> LateTurn(rows, n, maxThink) || exists i :: 0 <= i < n && LateTurn(rows[..n], i, maxThink)
  {
    var n := |rows| - 1;
    forall i | 0 <= i < n
      ensures LateTurn(rows[..n], i, maxThink) <==> LateTurn(rows, i, maxThink)
    {
      assert rows[..n][..i] == rows[..i];
    }
  }

  // ----- steps between the two clocks

  /** Wall clock minus monotonic clock, where a row carries both. */
  function Offset(): (f: RequestRecord -> real) {
    (r: RequestRecord) => if r.startedMonotonic.Some? then r.startedAt - r.startedMonotonic.value else 0.0
  }

  /** For rows that all carry both clocks, the pass keeps the least and the greatest offset. */
  lemma {:induction false} OnePassOffsets(rows: seq<RequestRecord>, maxThink: Option<real>)
    requires AllStamped(rows)
    ensures IsLeast(InspectAll(rows, maxThink).offsetMin, Column(rows, Offset()))
    ensures IsGreatest(InspectAll(rows, maxThink).offsetMax, Column(rows, Offset()))
  {
    if rows != [] {
      var n := |rows| - 1;
      var a := InspectAll(rows[..n], maxThink);
      AllStampedSnoc(rows);
      OnePassOffsets(rows[..n], maxThink);
      VisitOffsets(a, rows[n], maxThink);
      LowerIsLeast(a.offsetMin, Column(rows[..n], Offset()), Offset()(rows[n]));
      UpperIsGreatest(a.offsetMax, Column(rows[..n], Offset()), Offset()(rows[n]));
    }
  }

  lemma VisitOffsets(a: Acc, r: RequestRecord, maxThink: Option<real>)
    requires r.startedMonotonic.Some?
    ensures Inspect(a, r, maxThink).offsetMin == Lower(a.offsetMin, Offset()(r))
    ensures Inspect(a, r, maxThink).offsetMax == Upper(a.offsetMax, Offset()(r))
  {
  }

  ghost predicate Stepped(rows: seq<RequestRecord>) {
    exists i, j :: 0 <= i < |rows| && 0 <= j < |rows| && Offset()(rows[i]) - Offset()(rows[j]) > 1.0
  }

  /** A clock step: every row carries both clocks and two offsets differ by over a second. */
  lemma ClockStepIff(rows: seq<RequestRecord>, p: Params)
    ensures WithClocks(InspectAll(rows, p.MaxThinkS()), p).exactClockStep <==> AllStamped(rows) && Stepped(rows)
  {
    var a := InspectAll(rows, p.MaxThinkS());
    MonotonicNeedsAllRows(rows, p.MaxThinkS());
    if AllStamped(rows) {
      OnePassOffsets(rows, p.MaxThinkS());
      SpreadIff(rows, a.offsetMin, a.offsetMax);
    }
  }

  lemma SpreadIff(rows: seq<RequestRecord>, least: Option<real>, greatest: Option<real>)
    requires IsLeast(least, Column(rows, Offset())) && IsGreatest(greatest, Column(rows, Offset()))
    ensures (least.Some? && greatest.Some? && greatest.value - least.value > CLOCK_GAP_S) <==> Stepped(rows)
  {
    var column := Column(rows, Offset());
    if rows != [] {
      assert column[0] == Offset()(rows[0]);
      var i :| 0 <= i < |column| && column[i] == greatest.value;
      var j :| 0 <= j < |column| && column[j] == least.value;
      assert Offset()(rows[i]) - Offset()(rows[j]) == greatest.value - least.value;
    }
    forall i, j | 0 <= i < |rows| && 0 <= j < |rows|
      ensures Offset()(rows[i]) - Offset()(rows[j]) <= greatest.value - least.value
    {
      assert column[i] <= greatest.value && least.value <= column[j];
    }
  }

  // ----- continuity of the pool

  function LatestEnd(rows: seq<RequestRecord>): (x: real)
    requires rows != []
  {
    var end := rows[|rows| - 1].startedAt + rows[|rows| - 1].totalMs / 1000.0;
    if |rows| > 1 && LatestEnd(rows[..|rows| - 1]) > end then LatestEnd(rows[..|rows| - 1]) else end
  }

  /** How long each first attempt started after everything before it had ended. */
  function PoolGaps(rows: seq<RequestRecord>): (s: seq<real>) {
    if |rows| <= 1 then []
    else
      var n := |rows| - 1;
      var before := PoolGaps(rows[..n]);
      if rows[n].attempt == 1 then before + [rows[n].startedAt - LatestEnd(rows[..n])] else before
  }

  lemma VisitWallMax(a: Acc, r: RequestRecord, maxThink: Option<real>)
    ensures Inspect(a, r, maxThink).wallMax == Upper(a.wallMax, r.startedAt + r.Seconds())
  {
    assert VisitGaps(VisitClocks(a, r), r, maxThink).wallMax == a.wallMax;
  }

  lemma VisitPool(a: Acc, r: RequestRecord, maxThink: Option<real>)
    ensures Inspect(a, r, maxThink).maxPoolGap
         == if a.wallMax.Some? && r.attempt == 1 then Upper(a.maxPoolGap, r.startedAt - a.wallMax.value)
            else a.maxPoolGap
  {
    var b := VisitClocks(a, r);
    assert b.wallMax == a.wallMax && b.maxPoolGap == a.maxPoolGap;
  }

  lemma {:induction false} WallMaxIsLatestEnd(rows: seq<RequestRecord>, maxThink: Option<real>)
    ensures InspectAll(rows, maxThink).wallMax == if rows == [] then None else Some(LatestEnd(rows))
  {
    if rows != [] {
      WallMaxIsLatestEnd(rows[..|rows| - 1], maxThink);
      VisitWallMax(InspectAll(rows[..|rows| - 1], maxThink), rows[|rows| - 1], maxThink);
    }
  }

  /** The pool gap kept is the longest of them. */
  lemma {:induction false} PoolGapIsLongest(rows: seq<RequestRecord>, maxThink: Option<real>)
    ensures IsGreatest(InspectAll(rows, maxThink).maxPoolGap, PoolGaps(rows))
  {
    if rows != [] {
      var n := |rows| - 1;
      var a := InspectAll(rows[..n], maxThink);
      PoolGapIsLongest(rows[..n], maxThink);
      WallMaxIsLatestEnd(rows[..n], maxThink);
      VisitPool(a, rows[n], maxThink);
      if n > 0 {
        UpperIsGreatest(a.maxPoolGap, PoolGaps(rows[..n]), rows[n].startedAt - LatestEnd(rows[..n]));
      }
    }
  }

  /** The longest think time of a run, in seconds, if it was recorded. */
  function LongestThink(p: Params): (z: Option<real>) {
    match p.thinkMs
    case None => None
    case Some((_, most)) => Some(most as real / 1000.0)
  }

  /** The longest pause a healthy pool makes: none without think time, unknown when that is not recorded. */
  function Pause(rows: seq<RequestRecord>, p: Params): (r: Option<real>) {
    if HasLaterTurn(rows) then LongestThink(p) else Some(0.0)
  }

  predicate HasLaterTurn(rows: seq<RequestRecord>) {
    exists i :: 0 <= i < |rows| && rows[i].turn > 0
  }

  lemma LaterTurnSnoc(rows: seq<RequestRecord>)
    requires rows != []
    ensures HasLaterTurn(rows) <==> HasLaterTurn(rows[..|rows| - 1]) || rows[|rows| - 1].turn > 0
  {
    var rs := rows[..|rows| - 1];
    if i :| 0 <= i < |rows| && rows[i].turn > 0 {
      assert i < |rs| ==> rs[i].turn > 0;
    }
    if i :| 0 <= i < |rs| && rs[i].turn > 0 {
      assert rows[i].turn > 0;
    }
  }

  lemma {:induction false} MultipleTurnsIff(rows: seq<RequestRecord>, maxThink: Option<real>)
    ensures InspectAll(rows, maxThink).multipleTurns <==> HasLaterTurn(rows)
  {
    if rows != [] {
      var n := |rows| - 1;
      MultipleTurnsIff(rows[..n], maxThink);
      LaterTurnSnoc(rows);
      VisitTurns(InspectAll(rows[..n], maxThink), rows[n], maxThink);
    }
  }

  lemma VisitTurns(a: Acc, r: RequestRecord, maxThink: Option<real>)
    ensures Inspect(a, r, maxThink).multipleTurns == (a.multipleTurns || r.turn > 0)
  {
  }

  ghost predicate PoolStalled(rows: seq<RequestRecord>, p: Params) {
    var pause := Pause(rows, p);
    pause.Some? && exists i :: 0 <= i < |PoolGaps(rows)| && PoolGaps(rows)[i] - pause.value > 1.0
  }

  lemma GapsOfPass(a: Acc, p: Params, pause: Option<real>)
    requires pause == if a.multipleTurns then LongestThink(p) else Some(0.0)
    ensures var r := WithClocks(a, p);
            if pause.Some? && a.maxPoolGap.Some? then
              && (r.continuityGap <==> a.continuityGap || a.maxPoolGap.value - pause.value > 1.0)
              && r.maxContinuityGap == MaxReal(a.maxContinuityGap, a.maxPoolGap.value - pause.value)
            else r.continuityGap == a.continuityGap && r.maxContinuityGap == a.maxContinuityGap
  {
  }

  lemma StalledByGreatest(rows: seq<RequestRecord>, p: Params, greatest: Option<real>)
    requires IsGreatest(greatest, PoolGaps(rows))
    ensures PoolStalled(rows, p) <==>
              Pause(rows, p).Some? && greatest.Some? && greatest.value - Pause(rows, p).value > 1.0
  {
    if greatest.Some? {
      var i :| 0 <= i < |PoolGaps(rows)| && PoolGaps(rows)[i] == greatest.value;
    }
  }

  /**
   * A level's continuity verdict, read off its rows: a turn started late, or a first attempt started
   * more than a second after everything before it had ended and any think time was over.
   */
  lemma ReportedGapIff(rows: seq<RequestRecord>, p: Params)
    ensures WithClocks(InspectAll(rows, p.MaxThinkS()), p).continuityGap <==>
              (exists i :: 0 <= i < |rows| && LateTurn(rows, i, LongestThink(p))) || PoolStalled(rows, p)
  {
    assert p.MaxThinkS() == LongestThink(p);
    ContinuityGapIff(rows, LongestThink(p));
    PoolGapIsLongest(rows, LongestThink(p));
    MultipleTurnsIff(rows, LongestThink(p));
    var a := InspectAll(rows, LongestThink(p));
    StalledByGreatest(rows, p, a.maxPoolGap);
    GapsOfPass(a, p, Pause(rows, p));
  }

  /** A clock step, a late turn or a stalled pool. */
  ghost predicate Anomalous(rows: seq<RequestRecord>, p: Params) {
    || (AllStamped(rows) && Stepped(rows))
    || (exists i :: 0 <= i < |rows| && LateTurn(rows, i, LongestThink(p)))
    || PoolStalled(rows, p)
  }

  // ----- the longest gap

  /** `x` is the greatest of zero and the values. */
  ghost predicate IsLongest(x: real, values: seq<real>) {
    && 0.0 <= x && (forall i :: 0 <= i < |values| ==> values[i] <= x)
    && (x == 0.0 || x in values)
  }

  /** The gaps of sessions, beyond any think time. */
  function TurnGaps(rows: seq<RequestRecord>, maxThink: Option<real>): (gaps: seq<real>) {
    if rows == [] then []
    else
      var n := |rows| - 1;
      TurnGaps(rows[..n], maxThink)
      + match GapBefore(rows, n, maxThink) { case Some(gap) => [gap] case None => [] }
  }

  /** The gaps of the pool, beyond the pause a healthy pool makes. */
  function PoolWaits(rows: seq<RequestRecord>, p: Params): (waits: seq<real>) {
    match Pause(rows, p)
    case None => []
    case Some(pause) => seq(|PoolGaps(rows)|, k requires 0 <= k < |PoolGaps(rows)| => PoolGaps(rows)[k] - pause)
  }

  lemma LongerOf(x: real, values: seq<real>, y: real)
    requires IsLongest(x, values)
    ensures IsLongest(MaxReal(x, y), values + [y])
  {
    assert (values + [y])[|values|] == y;
    if x in values {
      var i :| 0 <= i < |values| && values[i] == x;
      assert (values + [y])[i] == x;
    }
  }

  lemma LongestOfBoth(x: real, values: seq<real>, greatest: Option<real>, more: seq<real>)
    requires IsLongest(x, values) && IsGreatest(greatest, more)
    ensures IsLongest(if greatest.Some? then MaxReal(x, greatest.value) else x, values + more)
  {
    if greatest.Some? {
      assert greatest.value in values + more;
    }
    assert x in values ==> x in values + more;
    assert forall i :: |values| <= i < |values + more| ==> (values + more)[i] == more[i - |values|];
  }

  lemma VisitLongest(a: Acc, r: RequestRecord, maxThink: Option<real>)
    ensures var gap := SessionGap(VisitClocks(a, r), r, maxThink);
            Inspect(a, r, maxThink).maxContinuityGap
            == if gap.Some? then MaxReal(a.maxContinuityGap, gap.value) else a.maxContinuityGap
  {
  }

  lemma {:induction false} LongestTurnGap(rows: seq<RequestRecord>, maxThink: Option<real>)
    ensures IsLongest(InspectAll(rows, maxThink).maxContinuityGap, TurnGaps(rows, maxThink))
  {
    if rows != [] {
      var n := |rows| - 1;
      var a := InspectAll(rows[..n], maxThink);
      LongestTurnGap(rows[..n], maxThink);
      GapIsRemembered(rows, maxThink);
      VisitLongest(a, rows[n], maxThink);
      if GapBefore(rows, n, maxThink).Some? {
        LongerOf(a.maxContinuityGap, TurnGaps(rows[..n], maxThink), GapBefore(rows, n, maxThink).value);
      }
    }
  }

  lemma ShiftedGreatest(greatest: Option<real>, gaps: seq<real>, pause: real, waits: seq<real>)
    requires IsGreatest(greatest, gaps) && |waits| == |gaps|
    requires forall k :: 0 <= k < |gaps| ==> waits[k] == gaps[k] - pause
    ensures IsGreatest(if greatest.Some? then Some(greatest.value - pause) else None, waits)
  {
    if greatest.Some? {
      var k :| 0 <= k < |gaps| && gaps[k] == greatest.value;
      assert waits[k] == greatest.value - pause;
    }
  }

  lemma LongestWait(rows: seq<RequestRecord>, p: Params, greatest: Option<real>)
    requires Pause(rows, p).Some? && IsGreatest(greatest, PoolGaps(rows))
    ensures IsGreatest(if greatest.Some? then Some(greatest.value - Pause(rows, p).value) else None, PoolWaits(rows, p))
  {
    ShiftedGreatest(greatest, PoolGaps(rows), Pause(rows, p).value, PoolWaits(rows, p));
  }

  lemma LongestOfPass(a: Acc, p: Params, pause: Option<real>, turns: seq<real>, waits: seq<real>)
    requires pause == if a.multipleTurns then LongestThink(p) else Some(0.0)
    requires IsLongest(a.maxContinuityGap, turns)
    requires if pause.None? then waits == []
             else IsGreatest(if a.maxPoolGap.Some? then Some(a.maxPoolGap.value - pause.value) else None, waits)
    ensures IsLongest(WithClocks(a, p).maxContinuityGap, turns + waits)
  {
    GapsOfPass(a, p, pause);
    if pause.Some? {
      LongestOfBoth(a.maxContinuityGap, turns,
                    if a.maxPoolGap.Some? then Some(a.maxPoolGap.value - pause.value) else None, waits);
    } else {
      assert turns + waits == turns;
    }
  }

  lemma LongestOfRows(a: Acc, rows: seq<RequestRecord>, p: Params)
    requires IsLongest(a.maxContinuityGap, TurnGaps(rows, LongestThink(p)))
    requires IsGreatest(a.maxPoolGap, PoolGaps(rows)) && (a.multipleTurns <==> HasLaterTurn(rows))
    ensures IsLongest(WithClocks(a, p).maxContinuityGap, TurnGaps(rows, LongestThink(p)) + PoolWaits(rows, p))
  {
    if Pause(rows, p).Some? {
      LongestWait(rows, p, a.maxPoolGap);
    }
    LongestOfPass(a, p, Pause(rows, p), TurnGaps(rows, LongestThink(p)), PoolWaits(rows, p));
  }

  /** The longest continuity gap published: of the turns' and the pool's waits beyond what think time explains. */
  lemma LongestGap(rows: seq<RequestRecord>, p: Params)
    ensures IsLongest(WithClocks(InspectAll(rows, p.MaxThinkS()), p).maxContinuityGap,
                      TurnGaps(rows, LongestThink(p)) + PoolWaits(rows, p))
  {
    LongestTurnGap(rows, p.MaxThinkS());
    PoolGapIsLongest(rows, p.MaxThinkS());
    MultipleTurnsIff(rows, p.MaxThinkS());
    LongestOfRows(InspectAll(rows, p.MaxThinkS()), rows, p);
  }

  // ----- what is published

  /** The clock verdicts and the raw throughput of a report. */
  predicate SameClocks(r: Report, s: Report) {
    && s.source == r.source && s.throughput == r.throughput && s.clockAnomaly == r.clockAnomaly
    && s.exactClockStep == r.exactClockStep && s.continuityGap == r.continuityGap
    && s.maxContinuityGap == r.maxContinuityGap
  }

  lemma CountsKeepClocks(r: Report, c: int, width: real, k: nat, ok: nat, total: real)
    requires width > 0.0
    ensures SameClocks(r, WithCounts(r, c, width, k, ok, total))
  {
  }

  lemma LawKeepsClocks(r: Report, c: int, width: real, k: nat, total: real, resolution: real,
                       think: Option<real>, thinking: nat)
    requires width > 0.0 && k > 0
    ensures SameClocks(r, WithLaw(r, c, width, k, total, resolution, think, thinking))
  {
  }

  lemma SteadyKeepsClocks(r: Report, a: Acc, c: int, p: Params, low: real, high: real)
    requires p.hold.Some? && low < high
    ensures SameClocks(r, WithSteady(r, a.rows, a.lastTurn, c, p, low, high, UsesMonotonic(a)))
  {
    var monotonic := UsesMonotonic(a);
    var k := Count(a.rows, Completes(low, high, monotonic));
    var total := SumOf(a.rows, ResponseIn(low, high, monotonic));
    var ok := Count(a.rows, CompletesOk(low, high, monotonic));
    CountsKeepClocks(r, c, high - low, k, ok, total);
    if k > 0 {
      LawKeepsClocks(WithCounts(r, c, high - low, k, ok, total), c, high - low, k, total,
                     CountResolution(a.rows, low, high, ShiftOf(total, k, p.hold.value), monotonic), p.ThinkS(),
                     Count(a.rows, CompletesThinking(low, high, monotonic, a.lastTurn)));
    }
  }

  lemma FinishKeepsClocks(a: Acc, c: int, p: Params)
    ensures SameClocks(WithClocks(a, p), Finish(a, c, p))
  {
    if p.hold.Some? && p.hold.value > 0.0 {
      SteadyKeepsClocks(WithClocks(a, p), a, c, p, Low(a, c, p), High(a, c, p));
    }
  }

  lemma BoundKeepsClocks(r: Report, c: int, floor: Option<real>)
    ensures SameClocks(r, WithBound(r, c, floor))
  {
  }

  lemma PublishedClocks(records: seq<RequestRecord>, c: int, p: Params)
    ensures SameClocks(WithClocks(InspectAll(Filter(records, OfLevel(c)), p.MaxThinkS()), p), TimingOf(records, c, p))
  {
    FinishKeepsClocks(InspectAll(Filter(records, OfLevel(c)), p.MaxThinkS()), c, p);
    BoundKeepsClocks(LevelOnly(records, c, p), c, Floor(records, p));
  }

  /** The published anomaly that contaminates a level: exactly these three, read off the level's own rows. */
  lemma PublishedAnomalyIff(records: seq<RequestRecord>, c: int, p: Params)
    ensures TimingOf(records, c, p).clockAnomaly <==> Anomalous(Filter(records, OfLevel(c)), p)
  {
    var rows := Filter(records, OfLevel(c));
    PublishedClocks(records, c, p);
    ClockStepIff(rows, p);
    ReportedGapIff(rows, p);
  }

  /** The verdicts behind it, each published on its own, and the longest gap. */
  lemma PublishedGapsAre(records: seq<RequestRecord>, c: int, p: Params)
    ensures var rows, r := Filter(records, OfLevel(c)), TimingOf(records, c, p);
            && (r.exactClockStep <==> AllStamped(rows) && Stepped(rows))
            && (r.continuityGap <==>
                  (exists i :: 0 <= i < |rows| && LateTurn(rows, i, LongestThink(p))) || PoolStalled(rows, p))
            && IsLongest(r.maxContinuityGap, TurnGaps(rows, LongestThink(p)) + PoolWaits(rows, p))
  {
    var rows := Filter(records, OfLevel(c));
    PublishedClocks(records, c, p);
    ClockStepIff(rows, p);
    ReportedGapIff(rows, p);
    LongestGap(rows, p);
  }
}
