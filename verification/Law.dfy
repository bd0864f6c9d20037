/** What Little's law check can and cannot say about a healthy closed loop (kneepoint/analyze/timing.py). */
module Law {
  // A pool of N workers issues requests back to back across the whole steady window. The requests of each
  // worker that overlap the window telescope: the durations of those that complete in it add up to the
  // window, give or take one response at either edge. That bounds the law gap the analysis publishes.
  // What a worker does before and after the window (pauses, retries, slow answers) does not matter.

  import opened Basics
  import opened Records
  import opened Timing

  /** The requests worker `w` issued, in order; `who` names the worker behind each row. */
  function OfWorker(rows: seq<RequestRecord>, who: seq<nat>, w: nat): (s: seq<RequestRecord>)
    requires |who| == |rows|
  {
    if rows == [] then []
    else
      var n := |rows| - 1;
      var before := OfWorker(rows[..n], who[..n], w);
      if who[n] == w then before + [rows[n]] else before
  }

  /** Never idle: the next request starts when the previous one ends. */
  ghost predicate BackToBack(rows: seq<RequestRecord>, monotonic: bool) {
    forall i :: 1 <= i < |rows| ==> RowStart(rows[i], monotonic) == RowEnd(rows[i - 1], monotonic)
  }

  ghost predicate ResponsesWithin(rows: seq<RequestRecord>, rmax: real) {
    forall i :: 0 <= i < |rows| ==> 0.0 <= rows[i].Seconds() <= rmax
  }

  /** Requests back to back from one under way when the window opens to one not over before it closes. */
  ghost predicate Spans(rows: seq<RequestRecord>, low: real, high: real, rmax: real, monotonic: bool) {
    && rows != []
    && RowStart(rows[0], monotonic) <= low
    && high <= RowEnd(rows[|rows| - 1], monotonic)
    && BackToBack(rows, monotonic)
    && ResponsesWithin(rows, rmax)
  }

  /** The requests from `a` up to `b` span the window; those before end before it opens, those after once it closed. */
  ghost predicate BusyFrom(rows: seq<RequestRecord>, a: nat, b: nat, low: real, high: real, rmax: real,
                           monotonic: bool) {
    && a <= b <= |rows|
    && Spans(rows[a..b], low, high, rmax, monotonic)
    && (forall i :: 0 <= i < a ==> RowEnd(rows[i], monotonic) < low)
    && (forall i :: b <= i < |rows| ==> high <= RowEnd(rows[i], monotonic))
  }

  /** Never idle while the window lasts; nothing is asked of the worker before or after it. */
  ghost predicate Busy(rows: seq<RequestRecord>, low: real, high: real, rmax: real, monotonic: bool) {
    exists a: nat, b: nat :: BusyFrom(rows, a, b, low, high, rmax, monotonic)
  }

  /** N busy workers behind the rows of a level. */
  ghost predicate BusyPool(rows: seq<RequestRecord>, who: seq<nat>, n: nat, low: real, high: real, rmax: real,
                           monotonic: bool) {
    && |who| == |rows|
    && (forall i :: 0 <= i < |who| ==> who[i] < n)
    && (forall w: nat :: w < n ==> Busy(OfWorker(rows, who, w), low, high, rmax, monotonic))
  }

  function InWindow(rows: seq<RequestRecord>, low: real, high: real, monotonic: bool): (x: real) {
    SumOf(rows, ResponseIn(low, high, monotonic))
  }

  /**
   * One worker's telescope. Before the window nothing counts; inside, what counts runs from some
   * point within one response before `low` up to the last completion; past it, the total is fixed.
   */
  lemma {:induction false} WorkerTelescope(rows: seq<RequestRecord>, low: real, high: real, rmax: real, monotonic: bool)
    requires low < high && rows != [] && RowStart(rows[0], monotonic) <= low
    requires BackToBack(rows, monotonic) && ResponsesWithin(rows, rmax)
    ensures var end, total := RowEnd(rows[|rows| - 1], monotonic), InWindow(rows, low, high, monotonic);
            && (end < low ==> total == 0.0)
            && (low <= end < high ==> end - low <= total <= end - low + rmax)
            && (high <= end ==> high - low - rmax <= total <= high - low + rmax)
  {
    var n := |rows| - 1;
    var before := rows[..n];
    assert InWindow(rows, low, high, monotonic)
        == InWindow(before, low, high, monotonic) + ResponseIn(low, high, monotonic)(rows[n]);
    if n > 0 {
      WorkerTelescope(before, low, high, rmax, monotonic);
      assert RowStart(rows[n], monotonic) == RowEnd(rows[n - 1], monotonic);
    }
  }

  /** Total over the workers below `n`. */
  function Shared(rows: seq<RequestRecord>, who: seq<nat>, n: nat, low: real, high: real, monotonic: bool): (x: real)
    requires |who| == |rows|
  {
    if n == 0 then 0.0
    else Shared(rows, who, n - 1, low, high, monotonic) + InWindow(OfWorker(rows, who, n - 1), low, high, monotonic)
  }

  lemma {:induction false} SharedNothing(n: nat, low: real, high: real, monotonic: bool)
    ensures Shared([], [], n, low, high, monotonic) == 0.0
  {
    if n > 0 {
      SharedNothing(n - 1, low, high, monotonic);
    }
  }

  /** One more row adds its response to exactly one worker. */
  lemma {:induction false} SharedLast(rows: seq<RequestRecord>, who: seq<nat>, n: nat, low: real, high: real,
                                      monotonic: bool)
    requires |who| == |rows| > 0
    ensures var m := |rows| - 1;
            Shared(rows, who, n, low, high, monotonic)
            == Shared(rows[..m], who[..m], n, low, high, monotonic)
               + (if who[m] < n then ResponseIn(low, high, monotonic)(rows[m]) else 0.0)
  {
    if n > 0 {
      var m := |rows| - 1;
      SharedLast(rows, who, n - 1, low, high, monotonic);
      SumSnoc(OfWorker(rows[..m], who[..m], n - 1), rows[m], ResponseIn(low, high, monotonic));
    }
  }

  /** Splitting the rows by worker loses and repeats nothing. */
  lemma {:induction false} WorkersShareTheRows(rows: seq<RequestRecord>, who: seq<nat>, n: nat,
                                               low: real, high: real, monotonic: bool)
    requires |who| == |rows| && forall i :: 0 <= i < |who| ==> who[i] < n
    ensures InWindow(rows, low, high, monotonic) == Shared(rows, who, n, low, high, monotonic)
  {
    if rows == [] {
      assert who == [];
      SharedNothing(n, low, high, monotonic);
    } else {
      var m := |rows| - 1;
      WorkersShareTheRows(rows[..m], who[..m], n, low, high, monotonic);
      SharedLast(rows, who, n, low, high, monotonic);
    }
  }

  /** The completed responses differ from the window by at most one response. */
  ghost predicate FillsWindow(rows: seq<RequestRecord>, low: real, high: real, rmax: real, monotonic: bool) {
    Abs(high - low - InWindow(rows, low, high, monotonic)) <= rmax
  }

  /** The first `n` workers together stay within `n` responses of `n` windows. */
  lemma {:induction false} PoolTelescope(rows: seq<RequestRecord>, who: seq<nat>, n: nat, low: real, high: real,
                                         rmax: real, monotonic: bool)
    requires |who| == |rows|
    requires forall w: nat :: w < n ==> FillsWindow(OfWorker(rows, who, w), low, high, rmax, monotonic)
    ensures Abs(Times(n, high - low) - Shared(rows, who, n, low, high, monotonic)) <= Times(n, rmax)
  {
    if n > 0 {
      PoolTelescope(rows, who, n - 1, low, high, rmax, monotonic);
      assert FillsWindow(OfWorker(rows, who, n - 1), low, high, rmax, monotonic);
    }
  }

  /** Rows that complete outside the window count nothing. */
  lemma {:induction false} NothingOutside(rows: seq<RequestRecord>, low: real, high: real, monotonic: bool)
    requires forall i :: 0 <= i < |rows| ==> RowEnd(rows[i], monotonic) < low || high <= RowEnd(rows[i], monotonic)
    ensures InWindow(rows, low, high, monotonic) == 0.0
  {
    if rows != [] {
      NothingOutside(rows[..|rows| - 1], low, high, monotonic);
    }
  }

  /** Only the requests that span the window count. */
  lemma OnlySpanCounts(rows: seq<RequestRecord>, a: nat, b: nat, low: real, high: real, rmax: real, monotonic: bool)
    requires BusyFrom(rows, a, b, low, high, rmax, monotonic)
    ensures InWindow(rows, low, high, monotonic) == InWindow(rows[a..b], low, high, monotonic)
  {
    var f := ResponseIn(low, high, monotonic);
    assert rows == rows[..a] + rows[a..b] + rows[b..];
    SumConcat(rows[..a] + rows[a..b], rows[b..], f);
    SumConcat(rows[..a], rows[a..b], f);
    NothingOutside(rows[..a], low, high, monotonic);
    NothingOutside(rows[b..], low, high, monotonic);
  }

  /** A busy worker fills the window, whatever it does outside. */
  lemma BusyWorker(rows: seq<RequestRecord>, low: real, high: real, rmax: real, monotonic: bool)
    requires low < high && Busy(rows, low, high, rmax, monotonic)
    ensures FillsWindow(rows, low, high, rmax, monotonic)
  {
    var a: nat, b: nat :| BusyFrom(rows, a, b, low, high, rmax, monotonic);
    OnlySpanCounts(rows, a, b, low, high, rmax, monotonic);
    WorkerTelescope(rows[a..b], low, high, rmax, monotonic);
  }

  ghost predicate PoolFilled(n: nat, width: real, total: real, rmax: real) {
    Abs(Times(n, width) - total) <= Times(n, rmax)
  }

  /** The whole pool: N windows and the completed responses differ by at most N responses. */
  lemma PoolSlack(rows: seq<RequestRecord>, who: seq<nat>, n: nat, low: real, high: real, rmax: real, monotonic: bool)
    requires low < high && BusyPool(rows, who, n, low, high, rmax, monotonic)
    ensures PoolFilled(n, high - low, InWindow(rows, low, high, monotonic), rmax)
  {
    WorkersShareTheRows(rows, who, n, low, high, monotonic);
    forall w: nat | w < n
      ensures FillsWindow(OfWorker(rows, who, w), low, high, rmax, monotonic)
    {
      BusyWorker(OfWorker(rows, who, w), low, high, rmax, monotonic);
    }
    PoolTelescope(rows, who, n, low, high, rmax, monotonic);
  }

  /** With no think time the gap, times the completions, is the pool's busy time less what completed. */
  lemma GapIsSlack(c: nat, width: real, k: nat, total: real, thinking: nat)
    requires width > 0.0 && k > 0
    ensures Times(k, LawGap(c, width, k, total, 0.0, thinking)) == Times(c, width) - total
  {
    TimesIsProduct(k, LawGap(c, width, k, total, 0.0, thinking));
    TimesIsProduct(c, width);
    var kr := k as real;
    assert c as real / (kr / width) == c as real * width / kr;
    assert LawGap(c, width, k, total, 0.0, thinking) == c as real * width / kr - total / kr;
  }

  /** The steady window of a level as the analysis measures it. */
  ghost predicate PoolFills(records: seq<RequestRecord>, c: nat, p: Params, who: seq<nat>, rmax: real) {
    var rows := Filter(records, OfLevel(c));
    var a := InspectAll(rows, p.MaxThinkS());
    && p.hold.Some? && p.hold.value > 0.0 && p.thinkMs == Some((0, 0))
    && BusyPool(rows, who, c, Low(a, c, p), High(a, c, p), rmax, UsesMonotonic(a))
  }

  /** The run-wide bound leaves the law check alone. */
  lemma BoundKeepsLaw(r: Report, c: int, floor: Option<real>)
    ensures var b := WithBound(r, c, floor);
            && b.littleGap == r.littleGap && b.suspectedStall == r.suspectedStall && b.judged == r.judged
            && b.steadyCompletions == r.steadyCompletions
  {
  }

  /** A published gap was computed over the steady window of a judged level. */
  lemma GapNeedsSteady(a: Acc, c: int, p: Params)
    requires p.hold.Some? && Finish(a, c, p).littleGap.Some?
    ensures p.hold.value > 0.0
    ensures Finish(a, c, p)
         == WithSteady(WithClocks(a, p), a.rows, a.lastTurn, c, p, Low(a, c, p), High(a, c, p), UsesMonotonic(a))
  {
  }

  /** What the law check publishes, when it publishes a gap and there is no think time. */
  lemma CheckedGap(before: Report, c: nat, width: real, k: nat, total: real, resolution: real, thinking: nat)
    requires width > 0.0 && k > 0 && resolution >= 1.0 && before.littleGap.None?
    requires before.steadyCompletions == k
    requires WithLaw(before, c, width, k, total, resolution, Some(0.0), thinking).littleGap.Some?
    ensures GapFacts(WithLaw(before, c, width, k, total, resolution, Some(0.0), thinking), c, width, k, total)
  {
    GapIsSlack(c, width, k, total, thinking);
    FinerResolution(c, width, k, resolution);
    var gap := LawGap(c, width, k, total, 0.0, thinking);
    if Abs(gap) > 2.0 * LittleResolution(c, width, k, 1.0) {
      BeyondResolution(gap, c, width, k);
    }
  }

  /** A gap beyond twice the finest resolution is worth more than two windows, scaled by k squared. */
  lemma BeyondResolution(gap: real, c: nat, width: real, k: nat)
    requires width > 0.0 && k > 0 && Abs(gap) > 2.0 * LittleResolution(c, width, k, 1.0)
    ensures Times(k, Times(k, Abs(gap))) > Times(c, 2.0 * width)
  {
    TimesIsProduct(k, Abs(gap));
    TimesIsProduct(k, Times(k, Abs(gap)));
    TimesIsProduct(c, 2.0 * width);
    ClearDenominators(Abs(gap), c as real, width, k as real);
  }

  lemma ClearDenominators(g: real, c: real, width: real, k: real)
    requires width > 0.0 && k > 0.0 && c >= 0.0 && g > 2.0 * (c / (k / width) / k * 1.0)
    ensures k * (k * g) > c * (2.0 * width)
  {
    var q := c / (k / width) / k;
    assert k / width > 0.0;
    assert q * k == c / (k / width);
    assert c / (k / width) * (k / width) == c;
    assert q * k * k == c * width by {
      assert c / (k / width) * k == c * width by {
        assert k == k / width * width;
      }
    }
    Scaled(g, q, k, c, width);
  }

  lemma Scaled(g: real, q: real, k: real, c: real, width: real)
    requires k > 0.0 && g > 2.0 * q && q * k * k == c * width
    ensures k * (k * g) > c * (2.0 * width)
  {
    TimesPositive(g, 2.0 * q, k);
    TimesPositive(k * g, k * (2.0 * q), k);
    calc {
      k * (k * (2.0 * q));
      2.0 * (q * k * k);
      2.0 * (c * width);
      c * (2.0 * width);
    }
  }

  lemma TimesPositive(x: real, y: real, k: real)
    requires k > 0.0 && x > y
    ensures k * x > k * y
  {
  }

  /** A nonempty steady window goes through the law check. */
  lemma SteadyIsChecked(before: Report, rows: seq<RequestRecord>, lastTurn: map<string, int>, c: nat, p: Params,
                        low: real, high: real, monotonic: bool)
    returns (counted: Report, resolution: real, thinking: nat)
    requires p.hold.Some? && low < high && Count(rows, Completes(low, high, monotonic)) > 0
    ensures resolution >= 1.0
    ensures counted.littleGap == before.littleGap && counted.suspectedStall == before.suspectedStall
    ensures counted.steadyCompletions == Count(rows, Completes(low, high, monotonic))
    ensures WithSteady(before, rows, lastTurn, c, p, low, high, monotonic)
         == WithLaw(counted, c, high - low, Count(rows, Completes(low, high, monotonic)),
                    InWindow(rows, low, high, monotonic), resolution, p.ThinkS(), thinking)
  {
    var k := Count(rows, Completes(low, high, monotonic));
    var total := InWindow(rows, low, high, monotonic);
    counted := WithCounts(before, c, high - low, k, Count(rows, CompletesOk(low, high, monotonic)), total);
    resolution := CountResolution(rows, low, high, ShiftOf(total, k, p.hold.value), monotonic);
    thinking := Count(rows, CompletesThinking(low, high, monotonic, lastTurn));
  }

  /** The same facts, over the rows of a steady window. */
  lemma SteadyGap(before: Report, rows: seq<RequestRecord>, lastTurn: map<string, int>, c: nat, p: Params,
                  low: real, high: real, monotonic: bool)
    requires p.hold.Some? && p.thinkMs == Some((0, 0)) && low < high && before.littleGap.None?
    requires WithSteady(before, rows, lastTurn, c, p, low, high, monotonic).littleGap.Some?
    ensures GapFacts(WithSteady(before, rows, lastTurn, c, p, low, high, monotonic), c, high - low,
                     Count(rows, Completes(low, high, monotonic)), InWindow(rows, low, high, monotonic))
  {
    var k := Count(rows, Completes(low, high, monotonic));
    if k == 0 {
      EmptyWindowHasNoGap(before, rows, lastTurn, c, p, low, high, monotonic);
    }
    var counted, resolution, thinking := SteadyIsChecked(before, rows, lastTurn, c, p, low, high, monotonic);
    assert p.ThinkS() == Some(0.0);
    CheckedGap(counted, c, high - low, k, InWindow(rows, low, high, monotonic), resolution, thinking);
  }

  lemma EmptyWindowHasNoGap(before: Report, rows: seq<RequestRecord>, lastTurn: map<string, int>, c: int, p: Params,
                            low: real, high: real, monotonic: bool)
    requires p.hold.Some? && low < high && Count(rows, Completes(low, high, monotonic)) == 0
    ensures WithSteady(before, rows, lastTurn, c, p, low, high, monotonic).littleGap == before.littleGap
    ensures WithSteady(before, rows, lastTurn, c, p, low, high, monotonic).suspectedStall == before.suspectedStall
  {
  }

  ghost predicate GapFacts(r: Report, c: nat, width: real, k: nat, total: real)
    requires width > 0.0
  {
    && r.littleGap.Some? && r.steadyCompletions == k > 0 && k >= 2 * c && r.judged
    && Times(k, r.littleGap.value) == Times(c, width) - total
    && (r.suspectedStall ==> Times(k, Times(k, Abs(r.littleGap.value))) > Times(c, 2.0 * width))
  }

  lemma FinerResolution(c: nat, width: real, k: nat, resolution: real)
    requires width > 0.0 && k > 0 && resolution >= 1.0
    ensures LittleResolution(c, width, k, 1.0) <= LittleResolution(c, width, k, resolution)
  {
    var one := c as real / (k as real / width) / k as real;
    assert one >= 0.0;
    assert one * (resolution - 1.0) >= 0.0;
  }

  // ----- the two results

  /** The gap over all counted completions is at most `n` responses, and on its own at most half of one. */
  ghost predicate GapIsSmall(r: Report, n: nat, rmax: real) {
    && r.littleGap.Some?
    && Times(r.steadyCompletions, Abs(r.littleGap.value)) <= Times(n, rmax)
    && Abs(r.littleGap.value) <= rmax / 2.0
  }

  /**
   * A pool of N workers that never idles across the steady window, whose responses there take up to `rmax`,
   * with no think time, publishes a law gap worth at most N responses over the completions it counted; and,
   * since a gap is only published when the level is judged, at most half a response.
   */
  lemma BusyPoolGapIsSmall(records: seq<RequestRecord>, n: nat, p: Params, who: seq<nat>, rmax: real)
    requires n > 0 && PoolFills(records, n, p, who, rmax) && TimingOf(records, n, p).littleGap.Some?
    ensures GapIsSmall(TimingOf(records, n, p), n, rmax)
  {
    var rows, low, high, monotonic := MeasuredWindow(records, n, p);
    WindowSlack(records, n, p, who, rmax, rows, low, high, monotonic);
    GapWithinPool(TimingOf(records, n, p), Count(rows, Completes(low, high, monotonic)), n, low, high,
                  InWindow(rows, low, high, monotonic), rmax);
  }

  /** Every row that completes in the window took the same time. */
  ghost predicate ConstantInWindow(rows: seq<RequestRecord>, response: real, low: real, high: real, monotonic: bool) {
    forall r :: r in rows && low <= RowEnd(r, monotonic) < high ==> r.Seconds() == response
  }

  /**
   * One worker that never idles across the steady window and whose responses completing in it all take
   * the same time is never suspected of stalling, whatever it does outside the window.
   */
  lemma SteadyWorkerIsNeverSuspected(records: seq<RequestRecord>, p: Params, who: seq<nat>, response: real)
    requires PoolFills(records, 1, p, who, response)
    requires var rows := Filter(records, OfLevel(1));
             var a := InspectAll(rows, p.MaxThinkS());
             ConstantInWindow(rows, response, Low(a, 1, p), High(a, 1, p), UsesMonotonic(a))
    ensures !TimingOf(records, 1, p).suspectedStall
  {
    if TimingOf(records, 1, p).suspectedStall {
      SuspicionNeedsGap(records, 1, p);
      var rows, low, high, monotonic := MeasuredWindow(records, 1, p);
      WindowSlack(records, 1, p, who, response, rows, low, high, monotonic);
      ConstantResponses(rows, response, low, high, monotonic);
      NoRoomForSuspicion(TimingOf(records, 1, p), Count(rows, Completes(low, high, monotonic)), low, high,
                         InWindow(rows, low, high, monotonic), response);
    }
  }

  lemma WindowSlack(records: seq<RequestRecord>, n: nat, p: Params, who: seq<nat>, rmax: real,
                    rows: seq<RequestRecord>, low: real, high: real, monotonic: bool)
    requires PoolFills(records, n, p, who, rmax) && rows == Filter(records, OfLevel(n)) && low < high
    requires var a := InspectAll(rows, p.MaxThinkS());
             low == Low(a, n, p) && high == High(a, n, p) && monotonic == UsesMonotonic(a)
    ensures PoolFilled(n, high - low, InWindow(rows, low, high, monotonic), rmax)
  {
    PoolSlack(rows, who, n, low, high, rmax, monotonic);
  }

  lemma SuspicionNeedsGap(records: seq<RequestRecord>, c: nat, p: Params)
    requires p.hold.Some? && TimingOf(records, c, p).suspectedStall
    ensures TimingOf(records, c, p).littleGap.Some?
  {
    var rows := Filter(records, OfLevel(c));
    var a := InspectAll(rows, p.MaxThinkS());
    BoundKeepsLaw(LevelOnly(records, c, p), c, Floor(records, p));
    SuspicionNeedsSteady(a, c, p);
    SteadySuspicion(WithClocks(a, p), a.rows, a.lastTurn, c, p, Low(a, c, p), High(a, c, p), UsesMonotonic(a));
  }

  lemma SuspicionNeedsSteady(a: Acc, c: int, p: Params)
    requires p.hold.Some? && Finish(a, c, p).suspectedStall
    ensures p.hold.value > 0.0 && !WithClocks(a, p).suspectedStall
    ensures Finish(a, c, p)
         == WithSteady(WithClocks(a, p), a.rows, a.lastTurn, c, p, Low(a, c, p), High(a, c, p), UsesMonotonic(a))
  {
  }

  lemma SteadySuspicion(before: Report, rows: seq<RequestRecord>, lastTurn: map<string, int>, c: nat, p: Params,
                        low: real, high: real, monotonic: bool)
    requires p.hold.Some? && low < high && !before.suspectedStall
    requires WithSteady(before, rows, lastTurn, c, p, low, high, monotonic).suspectedStall
    ensures WithSteady(before, rows, lastTurn, c, p, low, high, monotonic).littleGap.Some?
  {
    var k := Count(rows, Completes(low, high, monotonic));
    if k == 0 {
      EmptyWindowHasNoGap(before, rows, lastTurn, c, p, low, high, monotonic);
    }
    var counted, resolution, thinking := SteadyIsChecked(before, rows, lastTurn, c, p, low, high, monotonic);
    CheckedSuspicion(counted, c, high - low, k, InWindow(rows, low, high, monotonic), resolution, p.ThinkS(), thinking);
  }

  lemma CheckedSuspicion(before: Report, c: nat, width: real, k: nat, total: real, resolution: real,
                         think: Option<real>, thinking: nat)
    requires width > 0.0 && k > 0 && !before.suspectedStall
    ensures var r := WithLaw(before, c, width, k, total, resolution, think, thinking);
            r.suspectedStall ==> r.littleGap.Some?
  {
  }

  /** The window a published gap was measured over. */
  lemma MeasuredWindow(records: seq<RequestRecord>, n: nat, p: Params)
    returns (rows: seq<RequestRecord>, low: real, high: real, monotonic: bool)
    requires p.hold.Some? && p.thinkMs == Some((0, 0)) && TimingOf(records, n, p).littleGap.Some?
    ensures var a := InspectAll(Filter(records, OfLevel(n)), p.MaxThinkS());
            && rows == Filter(records, OfLevel(n))
            && low == Low(a, n, p) && high == High(a, n, p) && monotonic == UsesMonotonic(a) && low < high
    ensures GapFacts(TimingOf(records, n, p), n, high - low, Count(rows, Completes(low, high, monotonic)),
                     InWindow(rows, low, high, monotonic))
  {
    rows := Filter(records, OfLevel(n));
    var a := InspectAll(rows, p.MaxThinkS());
    low, high, monotonic := Low(a, n, p), High(a, n, p), UsesMonotonic(a);
    OnePassRows(rows, p.MaxThinkS());
    BoundKeepsLaw(LevelOnly(records, n, p), n, Floor(records, p));
    GapNeedsSteady(a, n, p);
    SteadyGap(WithClocks(a, p), rows, a.lastTurn, n, p, low, high, monotonic);
  }

  lemma {:induction false} ConstantResponses(rows: seq<RequestRecord>, response: real, low: real, high: real,
                                             monotonic: bool)
    requires ConstantInWindow(rows, response, low, high, monotonic)
    ensures InWindow(rows, low, high, monotonic) == Times(Count(rows, Completes(low, high, monotonic)), response)
  {
    if rows != [] {
      ConstantResponses(rows[..|rows| - 1], response, low, high, monotonic);
      assert rows[|rows| - 1] in rows;
    }
  }

  /** Two or more equal responses fill the window too well for the gap to pass twice the resolution. */
  lemma NoRoomForSuspicion(r: Report, k: nat, low: real, high: real, total: real, response: real)
    requires low < high && GapFacts(r, 1, high - low, k, total) && total == Times(k, response)
    requires PoolFilled(1, high - low, total, response)
    ensures !r.suspectedStall
  {
    var gap, width := r.littleGap.value, high - low;
    assert Times(1, width) == width && Times(1, response) == response && Times(1, 2.0 * width) == 2.0 * width;
    TimesAbs(k, gap);
    TimesMonotone(k, Times(k, Abs(gap)), response);
    TimesAtLeastTwo(k, response);
  }

  lemma {:induction false} TimesAbs(k: nat, x: real)
    ensures Times(k, Abs(x)) == Abs(Times(k, x))
    ensures x >= 0.0 ==> Times(k, x) >= 0.0
    ensures x <= 0.0 ==> Times(k, x) <= 0.0
  {
    if k > 0 {
      TimesAbs(k - 1, x);
    }
  }

  lemma {:induction false} TimesMonotone(k: nat, x: real, y: real)
    requires x <= y
    ensures Times(k, x) <= Times(k, y)
  {
    if k > 0 {
      TimesMonotone(k - 1, x, y);
    }
  }

  lemma {:induction false} TimesAtLeastTwo(k: nat, x: real)
    requires k >= 2 && x >= 0.0
    ensures Times(k, x) >= 2.0 * x
  {
    if k == 2 {
      assert Times(1, x) == x;
    } else {
      TimesAtLeastTwo(k - 1, x);
    }
  }

  lemma GapWithinPool(r: Report, k: nat, n: nat, low: real, high: real, total: real, rmax: real)
    requires n > 0 && low < high && GapFacts(r, n, high - low, k, total)
    requires PoolFilled(n, high - low, total, rmax)
    ensures GapIsSmall(r, n, rmax)
  {
    var gap := r.littleGap.value;
    TimesAbs(k, gap);
    if rmax < 0.0 {
      TimesNegative(n, rmax);
    }
    if Abs(gap) > rmax / 2.0 {
      HalvesAddUp(n, k, rmax / 2.0, Abs(gap));
    }
  }

  /** Twice as many terms, each above half of `2 * half`, add up to more. */
  lemma {:induction false} HalvesAddUp(n: nat, k: nat, half: real, x: real)
    requires n > 0 && k >= 2 * n && 0.0 <= half < x
    ensures Times(k, x) > Times(n, 2.0 * half)
    decreases k
  {
    assert Times(k, x) == Times(k - 1, x) + x;
    assert Times(k - 1, x) == Times(k - 2, x) + x;
    if n == 1 {
      TimesAbs(k - 2, x);
      assert Times(1, 2.0 * half) == 2.0 * half;
    } else {
      HalvesAddUp(n - 1, k - 2, half, x);
    }
  }

  lemma {:induction false} TimesNegative(n: nat, x: real)
    requires n > 0 && x < 0.0
    ensures Times(n, x) < 0.0
  {
    if n > 1 {
      TimesNegative(n - 1, x);
    }
  }

  // ----- such a pool exists: one worker, a slow first answer, a pause, then four requests of a second each

  function Answer(id: string, start: real, ms: real): (requestRecord: RequestRecord) {
    RequestRecord(id, 1, 0, 1, true, Some(200), None, None, None, false, start, Some(start), ms,
                  None, None, None, None)
  }

  function Slow(): (requestRecord: RequestRecord) {
    Answer("a", 0.0, 1250.0)
  }

  function Steady(): (s: seq<RequestRecord>) {
    [Answer("b", 1.5, 1000.0), Answer("c", 2.5, 1000.0), Answer("d", 3.5, 1000.0), Answer("e", 4.5, 1000.0)]
  }

  function SixSeconds(): (s: seq<RequestRecord>) {
    [Slow()] + Steady()
  }

  function SixSecondParams(): (params: Params) {
    Params(Some(6.0), Some((0, 0)), map[], Some(map[1 := Completed]))
  }

  /**
   * The example meets every condition of the two results, and a gap is published for it; before the
   * window its worker answered slowly and paused.
   */
  lemma SuchAPoolExists()
    ensures PoolFills(SixSeconds(), 1, SixSecondParams(), [0, 0, 0, 0, 0], 1.0)
    ensures var a := InspectAll(SixSeconds(), SixSecondParams().MaxThinkS());
            ConstantInWindow(SixSeconds(), 1.0, Low(a, 1, SixSecondParams()), High(a, 1, SixSecondParams()),
                             UsesMonotonic(a))
    ensures TimingOf(SixSeconds(), 1, SixSecondParams()).littleGap.Some?
    ensures !BackToBack(SixSeconds(), true) && !ResponsesWithin(SixSeconds(), 1.0)
  {
    var rows, p := SixSeconds(), SixSecondParams();
    OneLevel();
    SixSecondClock();
    SixSecondWorker();
    var a := InspectAll(rows, p.MaxThinkS());
    SixSecondWindow(a);
    SixSecondGap(a);
    BoundKeepsLaw(LevelOnly(rows, 1, p), 1, Floor(rows, p));
    PauseBefore();
  }

  lemma PauseBefore()
    ensures !BackToBack(SixSeconds(), true) && !ResponsesWithin(SixSeconds(), 1.0)
    ensures ConstantInWindow(SixSeconds(), 1.0, 2.0, 4.8, true)
  {
    var rows := SixSeconds();
    assert rows[0] == Slow() && rows[1] == Steady()[0];
    assert RowStart(rows[1], true) != RowEnd(rows[1 - 1], true);
  }

  lemma OneLevel()
    ensures Filter(SixSeconds(), OfLevel(1)) == SixSeconds()
  {
    FilterAllOrNone(SixSeconds(), OfLevel(1));
  }

  /** When every row carries a monotonic start, none before zero and the first at zero, zero is the earliest. */
  lemma {:induction false} StartsAtZero(rows: seq<RequestRecord>, maxThink: Option<real>)
    requires rows != [] && rows[0].startedMonotonic == Some(0.0)
    requires forall i :: 0 <= i < |rows| ==> rows[i].startedMonotonic.Some? && rows[i].startedMonotonic.value >= 0.0
    ensures InspectAll(rows, maxThink).monoMin == Some(0.0)
  {
    var n := |rows| - 1;
    VisitMonoMin(InspectAll(rows[..n], maxThink), rows[n], maxThink);
    if n > 0 {
      StartsAtZero(rows[..n], maxThink);
    } else {
      assert rows[..0] == [];
    }
  }

  lemma VisitMonoMin(a: Acc, r: RequestRecord, maxThink: Option<real>)
    requires r.startedMonotonic.Some?
    ensures Inspect(a, r, maxThink).monoMin == Lower(a.monoMin, r.startedMonotonic.value)
  {
  }

  lemma ClockFromZero(rows: seq<RequestRecord>, maxThink: Option<real>)
    requires rows != [] && rows[0].startedMonotonic == Some(0.0)
    requires forall i :: 0 <= i < |rows| ==> rows[i].startedMonotonic.Some? && rows[i].startedMonotonic.value >= 0.0
    ensures var a := InspectAll(rows, maxThink); a.rows == rows && UsesMonotonic(a) && a.monoMin == Some(0.0)
  {
    OnePassRows(rows, maxThink);
    MonotonicNeedsAllRows(rows, maxThink);
    StartsAtZero(rows, maxThink);
  }

  lemma SixSecondClock()
    ensures var a := InspectAll(SixSeconds(), SixSecondParams().MaxThinkS());
            a.rows == SixSeconds() && UsesMonotonic(a) && a.monoMin == Some(0.0)
  {
    ClockFromZero(SixSeconds(), SixSecondParams().MaxThinkS());
  }

  lemma SixSecondWorker()
    ensures BusyPool(SixSeconds(), [0, 0, 0, 0, 0], 1, 2.0, 4.8, 1.0, true)
  {
    var rows, who: seq<nat> := SixSeconds(), [0, 0, 0, 0, 0];
    OnlyWorker(rows, who);
    assert rows[1..5] == Steady();
    assert BusyFrom(rows, 1, 5, 2.0, 4.8, 1.0, true);
  }

  lemma {:induction false} OnlyWorker(rows: seq<RequestRecord>, who: seq<nat>)
    requires |who| == |rows| && forall i :: 0 <= i < |who| ==> who[i] == 0
    ensures OfWorker(rows, who, 0) == rows
  {
    if rows != [] {
      OnlyWorker(rows[..|rows| - 1], who[..|rows| - 1]);
    }
  }

  /** A completed level with a hold time is analyzed over its steady window. */
  lemma CompletedReachesSteady(a: Acc, c: int, p: Params)
    requires p.hold.Some? && p.hold.value > 0.0 && p.levelStatus.Some?
    requires c in p.levelStatus.value && p.levelStatus.value[c] == Completed
    ensures Finish(a, c, p)
         == WithSteady(WithClocks(a, p), a.rows, a.lastTurn, c, p, Low(a, c, p), High(a, c, p), UsesMonotonic(a))
  {
  }

  lemma CheckPublishes(before: Report, c: nat, width: real, k: nat, total: real, resolution: real,
                       think: Option<real>, thinking: nat)
    requires width > 0.0 && k > 0 && k >= 2 * c && think.Some?
    ensures WithLaw(before, c, width, k, total, resolution, think, thinking).littleGap.Some?
  {
  }

  /** Enough completions and a known think time publish a gap. */
  lemma SteadyPublishes(before: Report, rows: seq<RequestRecord>, lastTurn: map<string, int>, c: nat, p: Params,
                        low: real, high: real, monotonic: bool)
    requires p.hold.Some? && low < high && p.thinkMs.Some?
    requires Count(rows, Completes(low, high, monotonic)) > 0 && Count(rows, Completes(low, high, monotonic)) >= 2 * c
    ensures WithSteady(before, rows, lastTurn, c, p, low, high, monotonic).littleGap.Some?
  {
    var counted, resolution, thinking := SteadyIsChecked(before, rows, lastTurn, c, p, low, high, monotonic);
    CheckPublishes(counted, c, high - low, Count(rows, Completes(low, high, monotonic)),
                   InWindow(rows, low, high, monotonic), resolution, p.ThinkS(), thinking);
  }

  lemma SixSecondWindow(a: Acc)
    requires UsesMonotonic(a) && a.monoMin == Some(0.0)
    ensures Low(a, 1, SixSecondParams()) == 2.0 && High(a, 1, SixSecondParams()) == 4.8
  {
  }

  lemma SixSecondGap(a: Acc)
    requires a.rows == SixSeconds() && UsesMonotonic(a) && a.monoMin == Some(0.0)
    ensures Finish(a, 1, SixSecondParams()).littleGap.Some?
  {
    var p := SixSecondParams();
    SixSecondWindow(a);
    SixSecondCount();
    CompletedReachesSteady(a, 1, p);
    SteadyPublishes(WithClocks(a, p), a.rows, a.lastTurn, 1, p, 2.0, 4.8, true);
  }

  lemma SixSecondCount()
    ensures Count(SixSeconds(), Completes(2.0, 4.8, true)) == 3
  {
    var f, s := Completes(2.0, 4.8, true), Steady();
    CountConcat([Slow()], s, f);
    assert s == [s[0]] + [s[1]] + [s[2]] + [s[3]];
    CountSnoc([s[0]] + [s[1]] + [s[2]], s[3], f);
    CountSnoc([s[0]] + [s[1]], s[2], f);
    CountSnoc([s[0]], s[1], f);
    CountSnoc([], s[0], f);
    CountSnoc([], Slow(), f);
    assert [] + [s[0]] == [s[0]] && [] + [Slow()] == [Slow()];
  }
}
