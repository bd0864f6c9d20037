/** kneepoint/analyze/timing.py: the published report of a level, read off the level's own rows. */
module TimingReport {
  import opened Basics
  import opened Records
  import opened Grouping
  import opened Timing
  import Continuity

  // ----- the vocabulary: rows, clocks and the window

  function StartedAt(r: RequestRecord, monotonic: bool): (x: real) {
    match r.startedMonotonic
    case Some(mono) => if monotonic then mono else r.startedAt
    case None => r.startedAt
  }

  function EndedAt(r: RequestRecord, monotonic: bool): (x: real) {
    StartedAt(r, monotonic) + r.totalMs / 1000.0
  }

  predicate EveryRowStamped(rows: seq<RequestRecord>) {
    rows != [] && forall r :: r in rows ==> r.startedMonotonic.Some?
  }

  ghost predicate EarliestStart(x: real, rows: seq<RequestRecord>, monotonic: bool) {
    && (exists r :: r in rows && x == StartedAt(r, monotonic))
    && (forall r :: r in rows ==> x <= StartedAt(r, monotonic))
  }

  ghost predicate LatestEnd(x: real, rows: seq<RequestRecord>, monotonic: bool) {
    && (exists r :: r in rows && x == EndedAt(r, monotonic))
    && (forall r :: r in rows ==> EndedAt(r, monotonic) <= x)
  }

  predicate EndsIn(r: RequestRecord, low: real, high: real, monotonic: bool) {
    low <= EndedAt(r, monotonic) < high
  }

  /** The user thinks after an answer that is not the last turn of its session in the level. */
  predicate ThinksAfter(r: RequestRecord, rows: seq<RequestRecord>) {
    r.ok && (r.turn < 0 || exists later :: later in rows && later.sessionId == r.sessionId && r.turn < later.turn)
  }

  function Within(low: real, high: real, monotonic: bool): (p: RequestRecord -> bool) {
    (r: RequestRecord) => EndsIn(r, low, high, monotonic)
  }

  function AnsweredWithin(low: real, high: real, monotonic: bool): (p: RequestRecord -> bool) {
    (r: RequestRecord) => EndsIn(r, low, high, monotonic) && r.ok
  }

  function ThinkingWithin(rows: seq<RequestRecord>, low: real, high: real, monotonic: bool)
    : (p: RequestRecord -> bool)
  {
    (r: RequestRecord) => EndsIn(r, low, high, monotonic) && ThinksAfter(r, rows)
  }

  function ResponseWithin(low: real, high: real, monotonic: bool): (f: RequestRecord -> real) {
    (r: RequestRecord) => if EndsIn(r, low, high, monotonic) then r.totalMs / 1000.0 else 0.0
  }

  /** The level's recorded start is used with the monotonic clock only. */
  function Opening(c: int, p: Params, first: real, monotonic: bool): (x: real) {
    if monotonic && c in p.levelStarts then p.levelStarts[c] else first
  }

  predicate Finished(c: int, p: Params) {
    p.levelStatus.None? || (c in p.levelStatus.value && p.levelStatus.value[c] == Completed)
  }

  /** The window was held to its end, as far as that can be told. */
  predicate Held(c: int, p: Params, high: real, last: real) {
    Finished(c, p) && (p.levelStatus.None? ==> high <= last)
  }

  // ----- what the accumulator knows

  lemma VisitTurn(a: Acc, r: RequestRecord, maxThink: Option<real>)
    ensures Inspect(a, r, maxThink).lastTurn
            == a.lastTurn[r.sessionId := MaxInt(r.turn,
                                                if r.sessionId in a.lastTurn then a.lastTurn[r.sessionId] else 0)]
  {
  }

  predicate HasTurn(rows: seq<RequestRecord>, id: string, turn: int) {
    exists r :: r in rows && r.sessionId == id && r.turn == turn
  }

  /** The last turn kept for a session is its greatest turn, or zero. */
  ghost predicate LastTurnOf(turns: map<string, int>, rows: seq<RequestRecord>, id: string) {
    if id !in turns then forall r :: r in rows ==> r.sessionId != id
    else
      && 0 <= turns[id] && (turns[id] == 0 || HasTurn(rows, id, turns[id]))
      && forall r :: r in rows && r.sessionId == id ==> r.turn <= turns[id]
  }

  lemma {:induction false} OnePassTurns(rows: seq<RequestRecord>, maxThink: Option<real>, id: string)
    ensures LastTurnOf(InspectAll(rows, maxThink).lastTurn, rows, id)
  {
    if rows != [] {
      var n := |rows| - 1;
      OnePassTurns(rows[..n], maxThink, id);
      VisitTurn(InspectAll(rows[..n], maxThink), rows[n], maxThink);
      TurnsGrow(InspectAll(rows[..n], maxThink).lastTurn, rows[..n], rows[n], id);
      assert rows[..n] + [rows[n]] == rows;
    }
  }

  lemma TurnsGrow(turns: map<string, int>, rows: seq<RequestRecord>, r: RequestRecord, id: string)
    requires LastTurnOf(turns, rows, id)
    ensures LastTurnOf(turns[r.sessionId := MaxInt(r.turn, if r.sessionId in turns then turns[r.sessionId] else 0)],
                       rows + [r], id)
  {
    var all := rows + [r];
    assert r in all;
    if id in turns && HasTurn(rows, id, turns[id]) {
      var s :| s in rows && s.sessionId == id && s.turn == turns[id];
      assert s in all;
    }
  }

  /** The pass counts as thinking exactly the answers after which the user thinks. */
  lemma ThinkingIsLaterTurn(rows: seq<RequestRecord>, turns: map<string, int>, low: real, high: real, monotonic: bool)
    requires forall id :: LastTurnOf(turns, rows, id)
    ensures Count(rows, CompletesThinking(low, high, monotonic, turns))
         == Count(rows, ThinkingWithin(rows, low, high, monotonic))
  {
    forall r | r in rows && r.ok
      ensures ThinksAfter(r, rows) <==> r.sessionId in turns && r.turn < turns[r.sessionId]
    {
      assert LastTurnOf(turns, rows, r.sessionId);
    }
    SameCount(rows, CompletesThinking(low, high, monotonic, turns), ThinkingWithin(rows, low, high, monotonic));
  }

  lemma SameWindow(rows: seq<RequestRecord>, low: real, high: real, monotonic: bool)
    ensures Count(rows, Completes(low, high, monotonic)) == Count(rows, Within(low, high, monotonic))
    ensures Count(rows, CompletesOk(low, high, monotonic)) == Count(rows, AnsweredWithin(low, high, monotonic))
    ensures SumOf(rows, ResponseIn(low, high, monotonic)) == SumOf(rows, ResponseWithin(low, high, monotonic))
  {
    SameCount(rows, Completes(low, high, monotonic), Within(low, high, monotonic));
    SameCount(rows, CompletesOk(low, high, monotonic), AnsweredWithin(low, high, monotonic));
    SameSum(rows, ResponseIn(low, high, monotonic), ResponseWithin(low, high, monotonic));
  }

  lemma VisitMono(a: Acc, r: RequestRecord, maxThink: Option<real>)
    requires r.startedMonotonic.Some?
    ensures Inspect(a, r, maxThink).monoMin == Lower(a.monoMin, StartedAt(r, true))
    ensures Inspect(a, r, maxThink).monoMax == Upper(a.monoMax, EndedAt(r, true))
  {
  }

  lemma VisitWall(a: Acc, r: RequestRecord, maxThink: Option<real>)
    ensures Inspect(a, r, maxThink).wallMin == Lower(a.wallMin, StartedAt(r, false))
    ensures Inspect(a, r, maxThink).wallMax == Upper(a.wallMax, EndedAt(r, false))
  {
  }

  ghost predicate Spanned(least: Option<real>, greatest: Option<real>, rows: seq<RequestRecord>, monotonic: bool) {
    && least.Some? && greatest.Some?
    && EarliestStart(least.value, rows, monotonic) && LatestEnd(greatest.value, rows, monotonic)
  }

  lemma SpanGrows(least: Option<real>, greatest: Option<real>, rows: seq<RequestRecord>, r: RequestRecord,
                  monotonic: bool)
    requires if rows == [] then least == None == greatest else Spanned(least, greatest, rows, monotonic)
    ensures Spanned(Lower(least, StartedAt(r, monotonic)), Upper(greatest, EndedAt(r, monotonic)), rows + [r],
                    monotonic)
  {
    var all := rows + [r];
    assert r in all;
    if rows != [] {
      var s :| s in rows && least.value == StartedAt(s, monotonic);
      var e :| e in rows && greatest.value == EndedAt(e, monotonic);
      assert s in all && e in all;
    }
  }

  lemma {:induction false} WallSpan(rows: seq<RequestRecord>, maxThink: Option<real>)
    ensures var a := InspectAll(rows, maxThink);
            if rows == [] then a.wallMin == None == a.wallMax else Spanned(a.wallMin, a.wallMax, rows, false)
  {
    if rows != [] {
      var n := |rows| - 1;
      var a := InspectAll(rows[..n], maxThink);
      WallSpan(rows[..n], maxThink);
      VisitWall(a, rows[n], maxThink);
      SpanGrows(a.wallMin, a.wallMax, rows[..n], rows[n], false);
      assert rows[..n] + [rows[n]] == rows;
    }
  }

  lemma {:induction false} MonoSpan(rows: seq<RequestRecord>, maxThink: Option<real>)
    requires forall r :: r in rows ==> r.startedMonotonic.Some?
    ensures var a := InspectAll(rows, maxThink);
            if rows == [] then a.monoMin == None == a.monoMax else Spanned(a.monoMin, a.monoMax, rows, true)
  {
    if rows != [] {
      var n := |rows| - 1;
      var a := InspectAll(rows[..n], maxThink);
      assert rows[..n] + [rows[n]] == rows;
      MonoSpan(rows[..n], maxThink);
      VisitMono(a, rows[n], maxThink);
      SpanGrows(a.monoMin, a.monoMax, rows[..n], rows[n], true);
    }
  }

  /** The pass knows the clock of the level, its earliest start and its latest end. */
  lemma SpanOfLevel(rows: seq<RequestRecord>, maxThink: Option<real>)
    requires rows != []
    ensures var a := InspectAll(rows, maxThink);
            && UsesMonotonic(a) == EveryRowStamped(rows)
            && EarliestStart(First(a), rows, EveryRowStamped(rows))
            && LatestEnd(Last(a), rows, EveryRowStamped(rows))
  {
    MonotonicNeedsAllRows(rows, maxThink);
    assert AllStamped(rows) <==> EveryRowStamped(rows) by {
      if AllStamped(rows) {
        forall r | r in rows
          ensures r.startedMonotonic.Some?
        {
          var i :| 0 <= i < |rows| && rows[i] == r;
        }
      }
    }
    WallSpan(rows, maxThink);
    if EveryRowStamped(rows) {
      MonoSpan(rows, maxThink);
    }
  }

  lemma SpanIsUnique(x: real, y: real, rows: seq<RequestRecord>, monotonic: bool)
    ensures EarliestStart(x, rows, monotonic) && EarliestStart(y, rows, monotonic) ==> x == y
    ensures LatestEnd(x, rows, monotonic) && LatestEnd(y, rows, monotonic) ==> x == y
  {
  }

  // ----- the count resolution

  /** The completions counted as the window slides by `shift` and by half of it, either way. */
  function Slid(rows: seq<RequestRecord>, low: real, high: real, shift: real, monotonic: bool): (counts: seq<int>) {
    [Count(rows, Within(low - shift, high - shift, monotonic)),
     Count(rows, Within(low - shift / 2.0, high - shift / 2.0, monotonic)),
     Count(rows, Within(low, high, monotonic)),
     Count(rows, Within(low + shift / 2.0, high + shift / 2.0, monotonic)),
     Count(rows, Within(low + shift, high + shift, monotonic))]
  }

  /** Half the spread of the counts, at least one. */
  ghost predicate HalfSpread(x: real, counts: seq<int>) {
    && 1.0 <= x
    && (forall i, j :: 0 <= i < |counts| && 0 <= j < |counts| ==> (counts[i] - counts[j]) as real / 2.0 <= x)
    && (x == 1.0
        || exists i, j :: 0 <= i < |counts| && 0 <= j < |counts| && x == (counts[i] - counts[j]) as real / 2.0)
  }

  lemma HalfSpreadOfFive(n0: int, n1: int, n2: int, n3: int, n4: int)
    ensures HalfSpread(MaxReal(1.0, (Max5(n0, n1, n2, n3, n4) - Min5(n0, n1, n2, n3, n4)) as real / 2.0),
                       [n0, n1, n2, n3, n4])
  {
    var ns := [n0, n1, n2, n3, n4];
    var most, least := Max5(n0, n1, n2, n3, n4), Min5(n0, n1, n2, n3, n4);
    assert forall i :: 0 <= i < |ns| ==> least <= ns[i] <= most;
    var i := if most == n0 then 0 else if most == n1 then 1 else if most == n2 then 2 else if most == n3 then 3 else 4;
    var j := if least == n0 then 0 else if least == n1 then 1 else if least == n2 then 2
             else if least == n3 then 3 else 4;
    assert ns[i] == most && ns[j] == least;
  }

  /** The five counts, as the analysis names them. */
  lemma FiveCounts(rows: seq<RequestRecord>, low: real, high: real, shift: real, monotonic: bool) returns (ns: seq<int>)
    ensures ns == Slid(rows, low, high, shift, monotonic) && |ns| == 5
    ensures CountResolution(rows, low, high, shift, monotonic)
            == MaxReal(1.0, (Max5(ns[0], ns[1], ns[2], ns[3], ns[4])
                             - Min5(ns[0], ns[1], ns[2], ns[3], ns[4])) as real / 2.0)
  {
    SameCount(rows, Completes(low - shift, high - shift, monotonic), Within(low - shift, high - shift, monotonic));
    SameCount(rows, Completes(low - shift / 2.0, high - shift / 2.0, monotonic),
              Within(low - shift / 2.0, high - shift / 2.0, monotonic));
    SameCount(rows, Completes(low, high, monotonic), Within(low, high, monotonic));
    SameCount(rows, Completes(low + shift / 2.0, high + shift / 2.0, monotonic),
              Within(low + shift / 2.0, high + shift / 2.0, monotonic));
    SameCount(rows, Completes(low + shift, high + shift, monotonic), Within(low + shift, high + shift, monotonic));
    ns := Slid(rows, low, high, shift, monotonic);
  }

  lemma ResolutionIsHalfSpread(rows: seq<RequestRecord>, low: real, high: real, shift: real, monotonic: bool)
    ensures HalfSpread(CountResolution(rows, low, high, shift, monotonic), Slid(rows, low, high, shift, monotonic))
  {
    var ns := FiveCounts(rows, low, high, shift, monotonic);
    assert ns == [ns[0], ns[1], ns[2], ns[3], ns[4]];
    HalfSpreadOfFive(ns[0], ns[1], ns[2], ns[3], ns[4]);
  }

  // ----- the law

  predicate Exceeds(gap: real, x: real) {
    gap > x || gap < -x
  }

  /** What is counted in a window: completions, answers, answers followed by a think time, seconds of responses. */
  datatype Tally = Tally(completed: nat, answered: nat, thinking: nat, seconds: real, slid: seq<int>)

  /** A mean response's half, and no more than a fifth of the hold. */
  function Slide(mean: real, hold: real): (x: real) {
    if mean / 2.0 <= hold / 5.0 then mean / 2.0 else hold / 5.0
  }

  function TallyOf(rows: seq<RequestRecord>, low: real, high: real, monotonic: bool, hold: real): (tally: Tally) {
    var k := Count(rows, Within(low, high, monotonic));
    var seconds := SumOf(rows, ResponseWithin(low, high, monotonic));
    Tally(k, Count(rows, AnsweredWithin(low, high, monotonic)), Count(rows, ThinkingWithin(rows, low, high, monotonic)),
          seconds, if k == 0 then [] else Slid(rows, low, high, Slide(seconds / k as real, hold), monotonic))
  }

  /** What Little's law makes of a tally, for `c` users over a window of width `w`. */
  datatype Figures = Figures(rate: real, answerRate: real, users: real, mean: real, gap: real, little: real)

  /**
   * Completions and answers per second, users in the system, mean response; then N·W/k - R/k - Z·t/k, what the
   * law leaves unexplained for one completion, and N·W/k² times the resolution, what the counting may be off by.
   */
  function FiguresOf(c: int, w: real, t: Tally, think: Option<real>, resolution: real): (x: Figures)
    requires w > 0.0
  {
    var k := t.completed as real;
    var z := match think { case Some(z) => z case None => 0.0 };
    Figures(k / w, t.answered as real / w, t.seconds / w,
            if t.completed > 0 then t.seconds / k else 0.0,
            if t.completed > 0 then c as real * w / k - t.seconds / k - z * t.thinking as real / k else 0.0,
            if t.completed > 0 then c as real * w / k / k * resolution else 0.0)
  }

  ghost predicate WindowFields(r: Report, c: int, t: Tally, x: Figures) {
    && r.window == Some(Steady) && r.steadyCompletions == t.completed && r.successes == t.answered
    && r.steadyThroughput == Some(x.rate) && r.scalingThroughput == Some(x.answerRate)
    && r.littleN == (if t.completed >= 2 * c then Some(x.users) else None)
    && r.meanResponse == (if t.completed > 0 then Some(x.mean) else None)
    && (r.judged <==> t.completed > 0 && t.completed >= 2 * c)
  }

  /**
   * The gap is published when there are two completions a user and the think time is known. A stall is suspected
   * exactly when it exceeds 50 ms, a twentieth of the mean response, and twice what the counting may be off by.
   */
  ghost predicate LawFields(r: Report, c: int, t: Tally, x: Figures, thinkKnown: bool) {
    && r.countResolution.Some? && HalfSpread(r.countResolution.value, t.slid)
    && r.littleGap == (if t.completed >= 2 * c && thinkKnown then Some(x.gap) else None)
    && r.littleResolution == Some(x.little)
    && r.stallThreshold == Some(Greatest3(0.05, 0.05 * x.mean, 2.0 * x.little))
    && (r.suspectedStall <==>
          r.littleGap.Some? && Exceeds(x.gap, 0.05) && Exceeds(x.gap, 0.05 * x.mean) && Exceeds(x.gap, 2.0 * x.little))
  }

  function Greatest3(x: real, y: real, z: real): (most: real)
    ensures most >= x && most >= y && most >= z && (most == x || most == y || most == z)
  {
    if x >= y && x >= z then x else if y >= z then y else z
  }

  /** The whole verdict of a window. */
  ghost predicate SteadyFields(r: Report, c: int, t: Tally, x: Figures, thinkKnown: bool) {
    && WindowFields(r, c, t, x)
    && if t.completed > 0 then LawFields(r, c, t, x, thinkKnown) else NoLaw(r)
  }

  /** Nothing was measured: no window, no rate to scale by, no verdict of the law. */
  predicate Unmeasured(r: Report) {
    && r.window.None? && r.steadyCompletions == 0 && r.successes == 0
    && r.steadyThroughput.None? && r.scalingThroughput.None? && r.littleN.None? && r.meanResponse.None?
    && NoLaw(r)
  }

  predicate NoLaw(r: Report) {
    && !r.judged && r.countResolution.None? && r.littleGap.None? && r.littleResolution.None?
    && r.stallThreshold.None? && !r.suspectedStall
  }

  lemma PerCompletion(c: int, w: real, k: nat)
    requires w > 0.0 && k > 0
    ensures k as real / w > 0.0
    ensures c as real / (k as real / w) == c as real * w / k as real
  {
    var x, y := c as real, k as real;
    assert y / w > 0.0;
    assert x / (y / w) == x * w / y by {
      assert (x * w / y) * (y / w) == x by {
        assert (x * w / y) * (y / w) == (x * w / y) * y / w;
        assert (x * w / y) * y == x * w;
      }
    }
  }

  lemma PerCount(x: real, y: real, k: real, resolution: real)
    requires x == y && k > 0.0
    ensures x / k * resolution == y / k * resolution
  {
  }

  /** The figures are those the analysis computes. */
  lemma FiguresAreTheLaw(c: int, w: real, t: Tally, think: Option<real>, resolution: real)
    requires w > 0.0 && t.completed > 0
    ensures var x, k := FiguresOf(c, w, t, think, resolution), t.completed;
            && t.seconds / k as real == x.mean
            && LittleResolution(c, w, k, resolution) == x.little
            && (think.Some? ==> LawGap(c, w, k, t.seconds, think.value, t.thinking) == x.gap)
  {
    var k := t.completed;
    PerCompletion(c, w, k);
    PerCount(c as real / (k as real / w), c as real * w / k as real, k as real, resolution);
  }

  lemma LawMeans(before: Report, c: int, w: real, t: Tally, x: Figures, resolution: real, think: Option<real>)
    requires before.littleGap.None? && !before.suspectedStall
    requires w > 0.0 && t.completed > 0 && HalfSpread(resolution, t.slid)
    requires t.seconds / t.completed as real == x.mean
    requires LittleResolution(c, w, t.completed, resolution) == x.little
    requires think.Some? ==> LawGap(c, w, t.completed, t.seconds, think.value, t.thinking) == x.gap
    ensures var r := WithLaw(before, c, w, t.completed, t.seconds, resolution, think, t.thinking);
            && LawFields(r, c, t, x, think.Some?)
            && r.meanResponse == Some(x.mean) && (r.judged <==> t.completed >= 2 * c)
  {
  }

  lemma LawKeepsWindow(before: Report, c: int, w: real, t: Tally, resolution: real, think: Option<real>)
    requires Unmeasured(before) && w > 0.0 && t.completed > 0
    ensures var counted := WithCounts(before, c, w, t.completed, t.answered, t.seconds);
            && counted.littleGap.None? && !counted.suspectedStall
            && WindowFields(WithLaw(counted, c, w, t.completed, t.seconds, resolution, think, t.thinking), c, t,
                            FiguresOf(c, w, t, think, resolution))
  {
  }

  lemma CheckedWindow(before: Report, c: int, w: real, t: Tally, resolution: real, think: Option<real>)
    requires Unmeasured(before) && w > 0.0 && t.completed > 0 && HalfSpread(resolution, t.slid)
    ensures var counted := WithCounts(before, c, w, t.completed, t.answered, t.seconds);
            SteadyFields(WithLaw(counted, c, w, t.completed, t.seconds, resolution, think, t.thinking), c, t,
                         FiguresOf(c, w, t, think, resolution), think.Some?)
  {
    var counted := WithCounts(before, c, w, t.completed, t.answered, t.seconds);
    LawKeepsWindow(before, c, w, t, resolution, think);
    FiguresAreTheLaw(c, w, t, think, resolution);
    LawMeans(counted, c, w, t, FiguresOf(c, w, t, think, resolution), resolution, think);
  }

  lemma EmptyWindow(before: Report, c: int, w: real, t: Tally, think: Option<real>)
    requires Unmeasured(before) && w > 0.0 && t.completed == 0
    ensures SteadyFields(WithCounts(before, c, w, 0, t.answered, t.seconds), c, t, FiguresOf(c, w, t, think, 0.0),
                         think.Some?)
  {
  }

  // ----- the report of a level

  predicate SameButBound(r: Report, s: Report) {
    s == r.(throughputBound := s.throughputBound, boundResolution := s.boundResolution,
            estimatorProblem := s.estimatorProblem)
  }

  lemma BoundLeavesRest(r: Report, c: int, floor: Option<real>)
    ensures SameButBound(r, WithBound(r, c, floor))
  {
  }

  lemma BoundKeepsSteady(r: Report, s: Report, c: int, t: Tally, x: Figures, thinkKnown: bool)
    requires SameButBound(r, s) && SteadyFields(r, c, t, x, thinkKnown)
    ensures SteadyFields(s, c, t, x, thinkKnown)
  {
  }

  lemma ClocksLeaveRest(a: Acc, p: Params)
    ensures Unmeasured(WithClocks(a, p))
  {
  }

  /** The think time of a run, in seconds, if it was recorded. */
  function ThinkOf(p: Params): (z: Option<real>) {
    match p.thinkMs
    case None => None
    case Some((least, most)) => Some((least + most) as real / 2.0 / 1000.0)
  }

  function ResolutionOf(r: Report): (x: real) {
    if r.countResolution.Some? then r.countResolution.value else 0.0
  }

  /** The report is what the tally of a window of width `w` comes to. */
  ghost predicate Says(r: Report, c: int, w: real, t: Tally, think: Option<real>)
    requires w > 0.0
  {
    SteadyFields(r, c, t, FiguresOf(c, w, t, think, ResolutionOf(r)), think.Some?)
  }

  /** User-seconds of the window that neither the responses nor the think times account for. */
  function Unaccounted(c: int, w: real, t: Tally, think: real): (x: real) {
    c as real * w - t.seconds - think * t.thinking as real
  }

  lemma GapTimesCount(c: int, w: real, t: Tally, think: Option<real>, resolution: real)
    requires w > 0.0 && t.completed > 0 && think.Some?
    ensures FiguresOf(c, w, t, think, resolution).gap * t.completed as real == Unaccounted(c, w, t, think.value)
  {
    var k := t.completed as real;
    var a, b, d := c as real * w, t.seconds, think.value * t.thinking as real;
    assert a / k * k == a && b / k * k == b && d / k * k == d;
    assert (a / k - b / k - d / k) * k == a / k * k - b / k * k - d / k * k;
  }

  lemma ExceedsTimes(gap: real, x: real, k: real)
    requires k > 0.0
    ensures Exceeds(gap, x) <==> Exceeds(gap * k, x * k)
  {
    assert gap > x <==> gap * k > x * k;
    assert gap < -x <==> gap * k < -x * k;
  }

  lemma MarkedByFigures(r: Report, c: int, t: Tally, x: Figures, thinkKnown: bool, idle: real)
    requires SteadyFields(r, c, t, x, thinkKnown) && thinkKnown && r.judged && x.gap * t.completed as real == idle
    ensures r.stallThreshold.Some?
    ensures r.suspectedStall <==> Exceeds(idle, r.stallThreshold.value * t.completed as real)
  {
    ExceedsTimes(x.gap, r.stallThreshold.value, t.completed as real);
  }

  /** What the verdict comes to for the seconds that nothing accounts for. */
  ghost predicate Marks(r: Report, t: Tally, idle: real) {
    && t.completed > 0 && r.stallThreshold.Some?
    && (r.suspectedStall <==> Exceeds(idle, r.stallThreshold.value * t.completed as real))
  }

  lemma MarkedByGap(r: Report, c: int, w: real, t: Tally, think: Option<real>)
    requires w > 0.0 && Says(r, c, w, t, think) && think.Some? && r.judged
    ensures Marks(r, t, Unaccounted(c, w, t, think.value))
  {
    GapTimesCount(c, w, t, think, ResolutionOf(r));
    MarkedByFigures(r, c, t, FiguresOf(c, w, t, think, ResolutionOf(r)), think.Some?,
                    Unaccounted(c, w, t, think.value));
  }

  /** The tally is what the analysis counts. */
  lemma TallyIsCounted(rows: seq<RequestRecord>, turns: map<string, int>, low: real, high: real, monotonic: bool,
                       hold: real)
    requires forall id :: LastTurnOf(turns, rows, id)
    ensures var t := TallyOf(rows, low, high, monotonic, hold);
            && t.completed == Count(rows, Completes(low, high, monotonic))
            && t.answered == Count(rows, CompletesOk(low, high, monotonic))
            && t.thinking == Count(rows, CompletesThinking(low, high, monotonic, turns))
            && t.seconds == SumOf(rows, ResponseIn(low, high, monotonic))
            && (t.completed > 0 ==>
                  HalfSpread(CountResolution(rows, low, high, ShiftOf(t.seconds, t.completed, hold), monotonic),
                              t.slid))
  {
    var t := TallyOf(rows, low, high, monotonic, hold);
    SameWindow(rows, low, high, monotonic);
    ThinkingIsLaterTurn(rows, turns, low, high, monotonic);
    if t.completed > 0 {
      ResolutionIsHalfSpread(rows, low, high, ShiftOf(t.seconds, t.completed, hold), monotonic);
    }
  }

  lemma WindowSays(before: Report, c: int, w: real, t: Tally, resolution: real, think: Option<real>)
    requires Unmeasured(before) && w > 0.0 && (t.completed > 0 ==> HalfSpread(resolution, t.slid))
    ensures var counted := WithCounts(before, c, w, t.completed, t.answered, t.seconds);
            Says(if t.completed == 0 then counted
                 else WithLaw(counted, c, w, t.completed, t.seconds, resolution, think, t.thinking), c, w, t, think)
  {
    if t.completed == 0 {
      EmptyWindow(before, c, w, t, think);
    } else {
      CheckedWindow(before, c, w, t, resolution, think);
    }
  }

  lemma SteadyMeans(before: Report, rows: seq<RequestRecord>, turns: map<string, int>, c: int, p: Params,
                    low: real, high: real, monotonic: bool)
    requires Unmeasured(before) && p.hold.Some? && low < high && forall id :: LastTurnOf(turns, rows, id)
    ensures Says(WithSteady(before, rows, turns, c, p, low, high, monotonic), c, high - low,
                 TallyOf(rows, low, high, monotonic, p.hold.value), ThinkOf(p))
  {
    var t := TallyOf(rows, low, high, monotonic, p.hold.value);
    TallyIsCounted(rows, turns, low, high, monotonic, p.hold.value);
    var resolution := if t.completed == 0 then 0.0
                      else CountResolution(rows, low, high, ShiftOf(t.seconds, t.completed, p.hold.value), monotonic);
    WindowSays(before, c, high - low, t, resolution, ThinkOf(p));
  }

  function WindowLow(c: int, p: Params, first: real, monotonic: bool): (x: real)
    requires p.hold.Some?
  {
    Opening(c, p, first, monotonic) + p.hold.value / 3.0
  }

  function WindowHigh(c: int, p: Params, first: real, monotonic: bool): (x: real)
    requires p.hold.Some?
  {
    Opening(c, p, first, monotonic) + p.hold.value * 4.0 / 5.0
  }

  /** `first` and `last` are the earliest start and the latest end of the level's rows, on its clock. */
  ghost predicate SpanOf(first: real, last: real, rows: seq<RequestRecord>) {
    EarliestStart(first, rows, EveryRowStamped(rows)) && LatestEnd(last, rows, EveryRowStamped(rows))
  }

  lemma LevelKnowsSpan(rows: seq<RequestRecord>, maxThink: Option<real>, first: real, last: real)
    requires rows != [] && SpanOf(first, last, rows)
    ensures var a := InspectAll(rows, maxThink);
            UsesMonotonic(a) == EveryRowStamped(rows) && First(a) == first && Last(a) == last && a.rows == rows
  {
    SpanOfLevel(rows, maxThink);
    SpanIsUnique(first, First(InspectAll(rows, maxThink)), rows, EveryRowStamped(rows));
    SpanIsUnique(last, Last(InspectAll(rows, maxThink)), rows, EveryRowStamped(rows));
    OnePassRows(rows, maxThink);
  }

  lemma FinishIsSteady(a: Acc, c: int, p: Params)
    requires p.hold.Some? && p.hold.value > 0.0 && Finished(c, p) && (p.levelStatus.None? ==> High(a, c, p) <= Last(a))
    ensures Finish(a, c, p) == WithSteady(WithClocks(a, p), a.rows, a.lastTurn, c, p, Low(a, c, p), High(a, c, p),
                                          UsesMonotonic(a))
  {
  }

  /** The accumulator knows what the rows say. */
  ghost predicate Knows(a: Acc, rows: seq<RequestRecord>, first: real, last: real) {
    && a.rows == rows && UsesMonotonic(a) == EveryRowStamped(rows) && First(a) == first && Last(a) == last
    && a.successful == Count(rows, IsOk()) && a.responseTotal == SumOf(rows, ResponseSeconds())
    && forall id :: LastTurnOf(a.lastTurn, rows, id)
  }

  lemma LevelKnows(rows: seq<RequestRecord>, maxThink: Option<real>, first: real, last: real)
    requires rows != [] && SpanOf(first, last, rows)
    ensures Knows(InspectAll(rows, maxThink), rows, first, last)
  {
    LevelKnowsSpan(rows, maxThink, first, last);
    OnePassTotals(rows, maxThink);
    SameSum(rows, SecondsOf(), ResponseSeconds());
    forall id
      ensures LastTurnOf(InspectAll(rows, maxThink).lastTurn, rows, id)
    {
      OnePassTurns(rows, maxThink, id);
    }
  }

  lemma SameOpening(a: Acc, rows: seq<RequestRecord>, c: int, p: Params, first: real, last: real)
    requires p.hold.Some? && p.hold.value > 0.0 && Knows(a, rows, first, last)
    ensures Low(a, c, p) == WindowLow(c, p, first, EveryRowStamped(rows))
    ensures High(a, c, p) == WindowHigh(c, p, first, EveryRowStamped(rows))
    ensures Low(a, c, p) < High(a, c, p)
  {
  }

  lemma SteadyAt(a: Acc, before: Report, rows: seq<RequestRecord>, c: int, p: Params, low: real, high: real,
                 monotonic: bool, r: Report)
    requires Unmeasured(before) && p.hold.Some? && low < high && forall id :: LastTurnOf(a.lastTurn, rows, id)
    requires r == WithSteady(before, rows, a.lastTurn, c, p, low, high, monotonic)
    ensures Says(r, c, high - low, TallyOf(rows, low, high, monotonic, p.hold.value), ThinkOf(p))
  {
    SteadyMeans(before, rows, a.lastTurn, c, p, low, high, monotonic);
  }

  lemma LevelIsSteady(a: Acc, rows: seq<RequestRecord>, c: int, p: Params, first: real, last: real)
    requires p.hold.Some? && p.hold.value > 0.0 && Knows(a, rows, first, last)
    requires Held(c, p, WindowHigh(c, p, first, EveryRowStamped(rows)), last)
    ensures var monotonic := EveryRowStamped(rows);
            var low, high := WindowLow(c, p, first, monotonic), WindowHigh(c, p, first, monotonic);
            Says(Finish(a, c, p), c, high - low, TallyOf(rows, low, high, monotonic, p.hold.value), ThinkOf(p))
  {
    ClocksLeaveRest(a, p);
    SameOpening(a, rows, c, p, first, last);
    FinishIsSteady(a, c, p);
    SteadyAt(a, WithClocks(a, p), rows, c, p, Low(a, c, p), High(a, c, p), UsesMonotonic(a), Finish(a, c, p));
  }

  /**
   * The report of a level that was held, read off its rows: completions, rates, the mean response, the gap in
   * Little's law and the suspicion of a stall, over the window from a third to four fifths of the hold time.
   */
  lemma SteadyReport(records: seq<RequestRecord>, c: int, p: Params, first: real, last: real)
    requires p.hold.Some? && p.hold.value > 0.0
    requires var rows := Filter(records, OfLevel(c));
             && rows != [] && SpanOf(first, last, rows)
             && Held(c, p, WindowHigh(c, p, first, EveryRowStamped(rows)), last)
    ensures var rows := Filter(records, OfLevel(c));
            var monotonic := EveryRowStamped(rows);
            var low, high := WindowLow(c, p, first, monotonic), WindowHigh(c, p, first, monotonic);
            Says(TimingOf(records, c, p), c, high - low, TallyOf(rows, low, high, monotonic, p.hold.value), ThinkOf(p))
  {
    var rows := Filter(records, OfLevel(c));
    var monotonic := EveryRowStamped(rows);
    var low, high := WindowLow(c, p, first, monotonic), WindowHigh(c, p, first, monotonic);
    LevelKnows(rows, p.MaxThinkS(), first, last);
    LevelIsSteady(InspectAll(rows, p.MaxThinkS()), rows, c, p, first, last);
    BoundLeavesRest(LevelOnly(records, c, p), c, Floor(records, p));
    var t := TallyOf(rows, low, high, monotonic, p.hold.value);
    var r := TimingOf(records, c, p);
    BoundKeepsSteady(LevelOnly(records, c, p), r, c, t, FiguresOf(c, high - low, t, ThinkOf(p), ResolutionOf(r)),
                     ThinkOf(p).Some?);
  }

  /** The report says what the window of these rows comes to, if the level was held to the window's end. */
  ghost predicate ReportsAt(r: Report, rows: seq<RequestRecord>, c: int, p: Params, first: real, last: real)
    requires p.hold.Some? && p.hold.value > 0.0
  {
    var monotonic := EveryRowStamped(rows);
    var low, high := WindowLow(c, p, first, monotonic), WindowHigh(c, p, first, monotonic);
    Held(c, p, high, last) ==>
      Says(r, c, high - low, TallyOf(rows, low, high, monotonic, p.hold.value), ThinkOf(p))
  }

  ghost predicate ReportsSteady(r: Report, rows: seq<RequestRecord>, c: int, p: Params)
    requires p.hold.Some? && p.hold.value > 0.0
  {
    exists first, last :: SpanOf(first, last, rows) && ReportsAt(r, rows, c, p, first, last)
  }

  lemma EveryReportIsSteady(records: seq<RequestRecord>, c: int, p: Params)
    requires p.hold.Some? && p.hold.value > 0.0 && Filter(records, OfLevel(c)) != []
    ensures ReportsSteady(TimingOf(records, c, p), Filter(records, OfLevel(c)), c, p)
  {
    var rows := Filter(records, OfLevel(c));
    var first, last := SpanExists(rows);
    if Held(c, p, WindowHigh(c, p, first, EveryRowStamped(rows)), last) {
      SteadyReport(records, c, p, first, last);
    }
    assert ReportsAt(TimingOf(records, c, p), rows, c, p, first, last);
  }

  /** Every level with rows has such a span. */
  lemma SpanExists(rows: seq<RequestRecord>) returns (first: real, last: real)
    requires rows != []
    ensures SpanOf(first, last, rows)
  {
    SpanOfLevel(rows, None);
    first, last := First(InspectAll(rows, None)), Last(InspectAll(rows, None));
  }

  /** Without a hold time the whole span is the window, if it has any length. */
  ghost predicate ObservedFields(r: Report, rows: seq<RequestRecord>, c: int, width: real) {
    if width <= 0.0 then Unmeasured(r)
    else
      var total := SumOf(rows, ResponseSeconds());
      && r.window == Some(Observed) && r.successes == Count(rows, IsOk()) && r.steadyCompletions == 0
      && r.scalingThroughput == Some(Count(rows, IsOk()) as real / width) && r.steadyThroughput.None?
      && r.littleN == (if |rows| >= 2 * c then Some(total / width) else None)
      && r.meanResponse.None? && NoLaw(r)
  }

  function ResponseSeconds(): (f: RequestRecord -> real) {
    (r: RequestRecord) => r.totalMs / 1000.0
  }

  lemma ObservedMeans(before: Report, a: Acc, c: int, width: real)
    requires Unmeasured(before) && a.successful == Count(a.rows, IsOk())
    requires a.responseTotal == SumOf(a.rows, ResponseSeconds())
    ensures ObservedFields(WithObserved(before, a, c, width), a.rows, c, width)
  {
  }

  lemma FinishIsNotSteady(a: Acc, c: int, p: Params)
    ensures p.hold.None? && Finished(c, p) ==>
              Finish(a, c, p) == WithObserved(WithClocks(a, p), a, c, Last(a) - First(a))
    ensures !Finished(c, p) || (p.hold.Some? && p.hold.value <= 0.0) ==> Finish(a, c, p) == WithClocks(a, p)
    ensures p.hold.Some? && p.levelStatus.None? && Last(a) < High(a, c, p) ==> Finish(a, c, p) == WithClocks(a, p)
  {
  }

  /** The report of a level without a steady window. */
  ghost predicate OtherFields(r: Report, rows: seq<RequestRecord>, c: int, p: Params, first: real, last: real) {
    && (!Finished(c, p) ==> Unmeasured(r))
    && (Finished(c, p) && p.hold.None? ==> ObservedFields(r, rows, c, last - first))
    && (p.hold.Some? && p.hold.value <= 0.0 ==> Unmeasured(r))
    && (p.hold.Some? && !Held(c, p, WindowHigh(c, p, first, EveryRowStamped(rows)), last) ==> Unmeasured(r))
  }

  lemma LevelIsNotSteady(a: Acc, rows: seq<RequestRecord>, c: int, p: Params, first: real, last: real)
    requires Knows(a, rows, first, last)
    ensures OtherFields(Finish(a, c, p), rows, c, p, first, last)
  {
    ClocksLeaveRest(a, p);
    FinishIsNotSteady(a, c, p);
    ObservedMeans(WithClocks(a, p), a, c, last - first);
  }

  /** The other reports: the whole span without a hold time; nothing for a level that was not held to its end. */
  lemma OtherReports(records: seq<RequestRecord>, c: int, p: Params, first: real, last: real)
    requires var rows := Filter(records, OfLevel(c)); rows != [] && SpanOf(first, last, rows)
    ensures OtherFields(TimingOf(records, c, p), Filter(records, OfLevel(c)), c, p, first, last)
  {
    var rows := Filter(records, OfLevel(c));
    LevelKnows(rows, p.MaxThinkS(), first, last);
    LevelIsNotSteady(InspectAll(rows, p.MaxThinkS()), rows, c, p, first, last);
    BoundLeavesRest(LevelOnly(records, c, p), c, Floor(records, p));
  }

  /** The raw throughput of a level: all its rows over the span from the earliest start to the latest end. */
  ghost predicate RawFields(r: Report, rows: seq<RequestRecord>, first: real, last: real) {
    && r.source == (if EveryRowStamped(rows) then Monotonic else WallFallback)
    && (r.throughput.Some? <==> last > first)
    && (r.throughput.Some? ==> r.throughput.value == |rows| as real / (last - first))
  }

  lemma RawOfPass(r: Report, a: Acc, p: Params, rows: seq<RequestRecord>, first: real, last: real)
    requires Continuity.SameClocks(WithClocks(a, p), r)
    requires UsesMonotonic(a) == EveryRowStamped(rows) && First(a) == first && Last(a) == last && a.rows == rows
    ensures RawFields(r, rows, first, last)
  {
  }

  lemma RawReport(records: seq<RequestRecord>, c: int, p: Params, first: real, last: real)
    requires var rows := Filter(records, OfLevel(c)); rows != [] && SpanOf(first, last, rows)
    ensures RawFields(TimingOf(records, c, p), Filter(records, OfLevel(c)), first, last)
  {
    var rows := Filter(records, OfLevel(c));
    LevelKnowsSpan(rows, p.MaxThinkS(), first, last);
    Continuity.PublishedClocks(records, c, p);
    RawOfPass(TimingOf(records, c, p), InspectAll(rows, p.MaxThinkS()), p, rows, first, last);
  }

  // ----- the bound from the lowest level

  predicate IsLowest(d: int, records: seq<RequestRecord>) {
    (exists r :: r in records && r.concurrency == d) && forall r :: r in records ==> d <= r.concurrency
  }

  /** What the mean response of the lowest level, if it is above zero, says about another level. */
  ghost predicate BoundFields(r: Report, c: int, floor: Option<real>) {
    if floor.None? || floor.value <= 0.0 then
      r.throughputBound.None? && r.boundResolution.None? && !r.estimatorProblem
    else
      && r.throughputBound == Some(c as real / floor.value)
      && (if r.judged then
            && r.steadyThroughput.Some? && r.countResolution.Some? && r.steadyCompletions > 0
            && var off := 2.0 * r.steadyThroughput.value * r.countResolution.value / r.steadyCompletions as real;
               && r.boundResolution.Some? && r.boundResolution.value == off
               && (r.estimatorProblem <==> r.steadyThroughput.value - r.throughputBound.value > off)
          else r.boundResolution.None? && !r.estimatorProblem)
  }

  predicate Unbounded(r: Report) {
    r.throughputBound.None? && r.boundResolution.None? && !r.estimatorProblem
  }

  lemma CountsStayUnbounded(before: Report, c: int, w: real, k: nat, ok: nat, total: real)
    requires w > 0.0 && Unbounded(before)
    ensures Unbounded(WithCounts(before, c, w, k, ok, total))
  {
  }

  lemma LawStaysUnbounded(before: Report, c: int, w: real, k: nat, total: real, resolution: real, think: Option<real>,
                          thinking: nat)
    requires w > 0.0 && k > 0 && Unbounded(before)
    ensures Unbounded(WithLaw(before, c, w, k, total, resolution, think, thinking))
  {
  }

  lemma SteadyIsUnbounded(before: Report, rows: seq<RequestRecord>, turns: map<string, int>, c: int, p: Params,
                          low: real, high: real, monotonic: bool)
    requires p.hold.Some? && low < high && Unbounded(before)
    ensures Unbounded(WithSteady(before, rows, turns, c, p, low, high, monotonic))
  {
    var k := Count(rows, Completes(low, high, monotonic));
    var total := SumOf(rows, ResponseIn(low, high, monotonic));
    var ok := Count(rows, CompletesOk(low, high, monotonic));
    CountsStayUnbounded(before, c, high - low, k, ok, total);
    if k > 0 {
      LawStaysUnbounded(WithCounts(before, c, high - low, k, ok, total), c, high - low, k, total,
                        CountResolution(rows, low, high, ShiftOf(total, k, p.hold.value), monotonic), p.ThinkS(),
                        Count(rows, CompletesThinking(low, high, monotonic, turns)));
    }
  }

  lemma FinishIsUnbounded(a: Acc, c: int, p: Params)
    ensures Unbounded(Finish(a, c, p))
  {
    assert Unbounded(WithClocks(a, p));
    if p.hold.Some? && p.hold.value > 0.0 {
      SteadyIsUnbounded(WithClocks(a, p), a.rows, a.lastTurn, c, p, Low(a, c, p), High(a, c, p), UsesMonotonic(a));
    }
  }

  lemma BoundMeans(r: Report, c: int, floor: Option<real>)
    requires Unbounded(r)
    requires r.judged ==> r.steadyThroughput.Some? && r.countResolution.Some? && r.steadyCompletions > 0
    ensures BoundFields(WithBound(r, c, floor), c, floor)
  {
  }

  lemma LowestIsFirst(records: seq<RequestRecord>, d: int)
    requires IsLowest(d, records)
    ensures Levels(records) != [] && Levels(records)[0] == d
  {
    LevelsAreSorted(records);
    var r :| r in records && r.concurrency == d;
    var i :| 0 <= i < |records| && records[i] == r;
    assert d in Levels(records);
    assert Levels(records)[0] in Levels(records);
  }

  lemma JudgedMeansMeasured(records: seq<RequestRecord>, c: int, p: Params)
    requires Filter(records, OfLevel(c)) != [] && TimingOf(records, c, p).judged
    ensures var r := TimingOf(records, c, p);
            r.steadyThroughput.Some? && r.countResolution.Some? && r.steadyCompletions > 0
  {
    var rows := Filter(records, OfLevel(c));
    var first, last := SpanExists(rows);
    OtherReports(records, c, p, first, last);
    SteadyReport(records, c, p, first, last);
  }

  /** The bound on a level's throughput: its users over the mean response of the lowest level. */
  lemma BoundReport(records: seq<RequestRecord>, c: int, p: Params, lowest: int)
    requires Filter(records, OfLevel(c)) != [] && IsLowest(lowest, records)
    ensures BoundFields(TimingOf(records, c, p), c, TimingOf(records, lowest, p).meanResponse)
  {
    LowestIsFirst(records, lowest);
    var r := LevelOnly(records, c, p);
    FinishIsUnbounded(InspectAll(Filter(records, OfLevel(c)), p.MaxThinkS()), c, p);
    BoundLeavesRest(r, c, Floor(records, p));
    BoundLeavesRest(LevelOnly(records, lowest, p), lowest, Floor(records, p));
    if r.judged {
      JudgedMeansMeasured(records, c, p);
    }
    BoundMeans(r, c, Floor(records, p));
  }

  // ----- a stall is marked

  /** The window of a level that was held to its end, and what it holds. */
  ghost predicate HeldWindow(rows: seq<RequestRecord>, c: int, p: Params, low: real, high: real, t: Tally) {
    exists first, last :: SpanOf(first, last, rows) && WindowOf(rows, c, p, first, last, low, high, t)
  }

  ghost predicate WindowOf(rows: seq<RequestRecord>, c: int, p: Params, first: real, last: real, low: real, high: real,
                           t: Tally)
  {
    && p.hold.Some? && p.hold.value > 0.0 && rows != []
    && low == WindowLow(c, p, first, EveryRowStamped(rows)) && high == WindowHigh(c, p, first, EveryRowStamped(rows))
    && Held(c, p, high, last)
    && t == TallyOf(rows, low, high, EveryRowStamped(rows), p.hold.value)
  }

  lemma SteadyWindowMarks(r: Report, rows: seq<RequestRecord>, c: int, p: Params, low: real, high: real, t: Tally)
    requires HeldWindow(rows, c, p, low, high, t) && p.thinkMs.Some? && r.judged
    requires p.hold.Some? && p.hold.value > 0.0 && ReportsSteady(r, rows, c, p)
    ensures low < high && Marks(r, t, Unaccounted(c, high - low, t, ThinkOf(p).value))
  {
    var first, last :| SpanOf(first, last, rows) && WindowOf(rows, c, p, first, last, low, high, t);
    var first', last' :| SpanOf(first', last', rows) && ReportsAt(r, rows, c, p, first', last');
    SpanIsUnique(first, first', rows, EveryRowStamped(rows));
    SpanIsUnique(last, last', rows, EveryRowStamped(rows));
    MarkedByGap(r, c, high - low, t, ThinkOf(p));
  }

  /**
   * A judged level with a known think time is marked exactly when the seconds of its users that nothing accounts
   * for come to more than the threshold for each completion.
   */
  lemma MarkedIffUnaccounted(records: seq<RequestRecord>, c: int, p: Params, low: real, high: real, t: Tally)
    requires HeldWindow(Filter(records, OfLevel(c)), c, p, low, high, t)
    requires p.thinkMs.Some? && TimingOf(records, c, p).judged
    ensures Marks(TimingOf(records, c, p), t, Unaccounted(c, high - low, t, ThinkOf(p).value))
  {
    EveryReportIsSteady(records, c, p);
    SteadyWindowMarks(TimingOf(records, c, p), Filter(records, OfLevel(c)), c, p, low, high, t);
  }

  /** One worker's rows: none starts before the one ahead of it ended, none takes longer than `rmax`. */
  ghost predicate OneAtATime(rows: seq<RequestRecord>, monotonic: bool, rmax: real) {
    && (forall i :: 0 <= i < |rows| ==> 0.0 <= rows[i].totalMs / 1000.0 <= rmax)
    && (forall i :: 0 <= i < |rows| - 1 ==> EndedAt(rows[i], monotonic) <= StartedAt(rows[i + 1], monotonic))
  }

  /** No request is in flight between `from` and `to`. */
  ghost predicate Pauses(rows: seq<RequestRecord>, monotonic: bool, from: real, to: real) {
    forall i :: 0 <= i < |rows| ==> EndedAt(rows[i], monotonic) <= from || to <= StartedAt(rows[i], monotonic)
  }

  /** The window's seconds up to the end of the last row, less the pause once it is past. */
  lemma {:induction false} PauseIsMissing(rows: seq<RequestRecord>, low: real, high: real, monotonic: bool, rmax: real,
                                          from: real, to: real)
    requires OneAtATime(rows, monotonic, rmax) && Pauses(rows, monotonic, from, to) && 0.0 <= rmax
    requires low <= from <= to <= high
    ensures var total := SumOf(rows, ResponseWithin(low, high, monotonic));
            if rows == [] || EndedAt(rows[|rows| - 1], monotonic) < low then total == 0.0
            else
              var end := EndedAt(rows[|rows| - 1], monotonic);
              var past := if end < high then end else high;
              total <= rmax + past - low - if end <= from then 0.0 else to - from
  {
    if rows != [] {
      var before := rows[..|rows| - 1];
      assert OneAtATime(before, monotonic, rmax) && Pauses(before, monotonic, from, to);
      PauseIsMissing(before, low, high, monotonic, rmax, from, to);
    }
  }

  /** A pause inside the window longer than a response, the think times and the threshold for each completion. */
  ghost predicate Stalls(r: Report, rows: seq<RequestRecord>, p: Params, low: real, high: real, t: Tally, rmax: real,
                         from: real, to: real)
  {
    && p.thinkMs.Some? && 0.0 <= rmax && low <= from <= to <= high
    && OneAtATime(rows, EveryRowStamped(rows), rmax) && Pauses(rows, EveryRowStamped(rows), from, to)
    && r.judged
    && (r.stallThreshold.Some? ==> to - from > rmax + ThinkOf(p).value * t.thinking as real
                                              + r.stallThreshold.value * t.completed as real)
  }

  lemma PauseShrinks(rows: seq<RequestRecord>, low: real, high: real, monotonic: bool, rmax: real, from: real, to: real)
    requires OneAtATime(rows, monotonic, rmax) && Pauses(rows, monotonic, from, to) && 0.0 <= rmax
    requires low <= from <= to <= high
    ensures SumOf(rows, ResponseWithin(low, high, monotonic)) <= rmax + (high - low) - (to - from)
  {
    PauseIsMissing(rows, low, high, monotonic, rmax, from, to);
  }

  lemma IdleIsLong(t: Tally, w: real, think: real, rmax: real, pause: real, bound: real)
    requires t.seconds <= rmax + w - pause && pause > rmax + think * t.thinking as real + bound
    ensures Exceeds(Unaccounted(1, w, t, think), bound)
  {
  }

  lemma OverdueMarks(r: Report, t: Tally, idle: real, bound: real)
    requires Marks(r, t, idle) && bound == r.stallThreshold.value * t.completed as real && Exceeds(idle, bound)
    ensures r.suspectedStall
  {
  }

  lemma StalledSeconds(rows: seq<RequestRecord>, p: Params, low: real, high: real, t: Tally, rmax: real,
                       from: real, to: real)
    requires HeldWindow(rows, 1, p, low, high, t) && 0.0 <= rmax && low <= from <= to <= high
    requires OneAtATime(rows, EveryRowStamped(rows), rmax) && Pauses(rows, EveryRowStamped(rows), from, to)
    ensures t.seconds <= rmax + (high - low) - (to - from)
  {
    PauseShrinks(rows, low, high, EveryRowStamped(rows), rmax, from, to);
  }

  lemma StallMarks(r: Report, t: Tally, w: real, think: real, rmax: real, pause: real)
    requires Marks(r, t, Unaccounted(1, w, t, think)) && t.seconds <= rmax + w - pause
    requires pause > rmax + think * t.thinking as real + r.stallThreshold.value * t.completed as real
    ensures r.suspectedStall
  {
    var bound := r.stallThreshold.value * t.completed as real;
    IdleIsLong(t, w, think, rmax, pause, bound);
    OverdueMarks(r, t, Unaccounted(1, w, t, think), bound);
  }

  lemma StallOfLevelMarks(r: Report, rows: seq<RequestRecord>, p: Params, low: real, high: real, t: Tally, rmax: real,
                          from: real, to: real)
    requires Stalls(r, rows, p, low, high, t, rmax, from, to)
    requires Marks(r, t, Unaccounted(1, high - low, t, ThinkOf(p).value))
    requires t.seconds <= rmax + (high - low) - (to - from)
    ensures r.suspectedStall
  {
    StallMarks(r, t, high - low, ThinkOf(p).value, rmax, to - from);
  }

  /**
   * A stall is always marked: when a single worker sends nothing inside the window for longer than a response, its
   * think times and the threshold for each completion together, the level is marked.
   */
  lemma StalledWorkerIsMarked(records: seq<RequestRecord>, p: Params, low: real, high: real, t: Tally, rmax: real,
                              from: real, to: real)
    requires HeldWindow(Filter(records, OfLevel(1)), 1, p, low, high, t)
    requires Stalls(TimingOf(records, 1, p), Filter(records, OfLevel(1)), p, low, high, t, rmax, from, to)
    ensures TimingOf(records, 1, p).suspectedStall
  {
    MarkedIffUnaccounted(records, 1, p, low, high, t);
    StalledSeconds(Filter(records, OfLevel(1)), p, low, high, t, rmax, from, to);
    StallOfLevelMarks(TimingOf(records, 1, p), Filter(records, OfLevel(1)), p, low, high, t, rmax, from, to);
  }
}
