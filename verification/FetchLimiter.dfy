/** examples/multi-agent/app.py: the fetch rate limiter, a lock held across a sleep, under cancellation. */
module FetchLimiter {
  // A run is a list of events: a call arrives, a queued call takes the free lock, the sleeping holder
  // wakes, a call is cancelled or times out, a served call is answered. Each event carries the readings
  // of a monotonic clock. Which event comes next is up to the schedule.

  import opened Basics

  /** Where one `fetch` call is. `Done` remembers whether it ever got past the limiter. */
  datatype Phase = Queued | Sleeping(until: real) | Serving | Done(served: bool, outcome: Outcome)

  datatype Outcome = Answered | Failed | TimedOut | Abandoned | Refused

  datatype State = State(
    rate: real,
    clock: real,
    nextFetchAt: real,
    holder: Option<int>,
    calls: map<int, Phase>,
    inFlight: int,
    fetchCalls: nat,
    fetchErrors: nat,
    grants: seq<real>)

  datatype Event =
    | Call(id: int, now: real, ready: bool)
    | Acquire(id: int, now: real, again: real)
    | Wake(id: int, now: real)
    | Cancel(id: int, now: real, timedOut: bool)
    | Respond(id: int, now: real, ok: bool)

  function Initial(rate: real, clock: real): (state: State) {
    State(rate, clock, 0.0, None, map[], 0, 0, 0, [])
  }

  /** The limiter is on when the configured rate is not zero. */
  predicate Limited(s: State) {
    s.rate != 0.0
  }

  function Gap(rate: real): (x: real) {
    if rate == 0.0 then 0.0 else 1.0 / rate
  }

  predicate Legal(s: State, e: Event) {
    && e.now >= s.clock
    && (e.Call? <==> e.id !in s.calls)
    && match e {
      case Call(id, now, ready) => true
      case Acquire(id, now, again) => s.calls[id] == Queued && s.holder.None? && again >= now
      case Wake(id, now) => s.calls[id].Sleeping? && now >= s.calls[id].until
      case Cancel(id, now, timedOut) => !s.calls[id].Done?
      case Respond(id, now, ok) => s.calls[id] == Serving
    }
  }

  /** Past the limiter: the lock is free again and the request goes out. */
  function Grant(s: State, id: int, now: real): (state: State) {
    s.(clock := now,
       nextFetchAt := if Limited(s) then now + Gap(s.rate) else s.nextFetchAt,
       holder := None,
       calls := s.calls[id := Serving],
       inFlight := s.inFlight + 1,
       grants := s.grants + [now])
  }

  /** A call ends; leaving the lock or the service on the way out. */
  function Finish(s: State, id: int, now: real, outcome: Outcome): (state: State)
    requires id in s.calls
  {
    var phase := s.calls[id];
    s.(clock := now,
       holder := if phase.Sleeping? then None else s.holder,
       calls := s.calls[id := Done(phase.Serving?, outcome)],
       inFlight := if phase.Serving? then s.inFlight - 1 else s.inFlight,
       fetchErrors := if outcome == Failed || outcome == TimedOut then s.fetchErrors + 1 else s.fetchErrors)
  }

  /** A call counts on arrival; without an HTTP client it is refused there and then, as no fetch error. */
  function Arrival(ready: bool): (phase: Phase) {
    if ready then Queued else Done(false, Refused)
  }

  function Step(s: State, e: Event): (state: State)
    requires Legal(s, e)
  {
    match e
    case Call(id, now, ready) =>
      s.(clock := now, calls := s.calls[id := Arrival(ready)], fetchCalls := s.fetchCalls + 1)
    case Acquire(id, now, again) =>
      var delay := MaxReal(0.0, s.nextFetchAt - now);
      if Limited(s) && delay > 0.0 then
        s.(clock := now, holder := Some(id), calls := s.calls[id := Sleeping(now + delay)])
      else Grant(s, id, again)
    case Wake(id, now) => Grant(s, id, now)
    case Cancel(id, now, timedOut) => Finish(s, id, now, if timedOut then TimedOut else Abandoned)
    case Respond(id, now, ok) => Finish(s, id, now, if ok then Answered else Failed)
  }

  ghost predicate LegalRun(s: State, events: seq<Event>)
    decreases |events|
  {
    events == [] || (Legal(s, events[0]) && LegalRun(Step(s, events[0]), events[1..]))
  }

  ghost function Run(s: State, events: seq<Event>): (state: State)
    requires LegalRun(s, events)
    decreases |events|
  {
    if events == [] then s else Run(Step(s, events[0]), events[1..])
  }

  // ----- the invariant

  ghost predicate Spaced(grants: seq<real>, gap: real) {
    forall i :: 1 <= i < |grants| ==> grants[i - 1] + gap <= grants[i]
  }

  function IsServing(): (p: Phase -> bool) {
    (p: Phase) => p.Serving?
  }

  /** In service now, or at some time before. */
  function WasServed(): (p: Phase -> bool) {
    (p: Phase) => p.Serving? || (p.Done? && p.served)
  }

  function IsError(): (p: Phase -> bool) {
    (p: Phase) => p.Done? && (p.outcome == Failed || p.outcome == TimedOut)
  }

  function CallsWhere(calls: map<int, Phase>, p: Phase -> bool): (keys: set<int>) {
    set id | id in calls && p(calls[id])
  }

  /** The next grant time follows from the last grant, and from nothing else. */
  ghost predicate ClockInv(s: State) {
    && s.rate >= 0.0 && s.clock >= 0.0
    && (s.grants != [] ==> s.grants[|s.grants| - 1] <= s.clock)
    && (Limited(s) ==> Spaced(s.grants, Gap(s.rate)))
    && s.nextFetchAt == (if Limited(s) && s.grants != [] then s.grants[|s.grants| - 1] + Gap(s.rate) else 0.0)
  }

  /** The lock is held exactly by the one sleeping call, which sleeps until the next grant time. */
  ghost predicate LockInv(s: State) {
    && (forall id :: id in s.calls && s.calls[id].Sleeping? <==> s.holder == Some(id))
    && (forall id :: id in s.calls && s.calls[id].Sleeping? ==> Limited(s) && s.calls[id].until == s.nextFetchAt)
  }

  ghost predicate CountInv(s: State) {
    && s.inFlight == |CallsWhere(s.calls, IsServing())|
    && |s.grants| == |CallsWhere(s.calls, WasServed())|
    && s.fetchErrors == |CallsWhere(s.calls, IsError())|
    && s.fetchCalls == |s.calls|
  }

  ghost predicate Inv(s: State) {
    ClockInv(s) && LockInv(s) && CountInv(s)
  }

  lemma GapPositive(rate: real)
    requires rate > 0.0
    ensures Gap(rate) > 0.0
  {
  }

  lemma StepKeepsClock(s: State, e: Event)
    requires ClockInv(s) && LockInv(s) && Legal(s, e)
    ensures ClockInv(Step(s, e))
  {
    if s.rate > 0.0 {
      GapPositive(s.rate);
    }
  }

  lemma StepKeepsLock(s: State, e: Event)
    requires LockInv(s) && Legal(s, e)
    ensures LockInv(Step(s, e))
  {
  }

  lemma CountAfter(calls: map<int, Phase>, id: int, phase: Phase, p: Phase -> bool)
    ensures |CallsWhere(calls[id := phase], p)| == |CallsWhere(calls, p)|
         - (if id in calls && p(calls[id]) then 1 else 0) + (if p(phase) then 1 else 0)
  {
    var before, after := CallsWhere(calls, p), CallsWhere(calls[id := phase], p);
    if p(phase) {
      assert after == before + {id};
    } else {
      assert after == before - {id};
    }
  }

  lemma StepKeepsCounts(s: State, e: Event)
    requires CountInv(s) && Legal(s, e)
    ensures CountInv(Step(s, e))
  {
    var phase := Step(s, e).calls[e.id];
    assert Step(s, e).calls == s.calls[e.id := phase];
    CountAfter(s.calls, e.id, phase, IsServing());
    CountAfter(s.calls, e.id, phase, WasServed());
    CountAfter(s.calls, e.id, phase, IsError());
    CardinalityAfter(s.calls, e.id, phase);
  }

  lemma CardinalityAfter(calls: map<int, Phase>, id: int, phase: Phase)
    ensures |calls[id := phase]| == |calls| + if id in calls then 0 else 1
  {
    assert calls[id := phase].Keys == calls.Keys + {id};
  }

  lemma StepKeepsInv(s: State, e: Event)
    requires Inv(s) && Legal(s, e)
    ensures Inv(Step(s, e))
  {
    StepKeepsClock(s, e);
    StepKeepsLock(s, e);
    StepKeepsCounts(s, e);
  }

  lemma InitialInv(rate: real, clock: real)
    requires rate >= 0.0 && clock >= 0.0
    ensures Inv(Initial(rate, clock))
  {
    var start := Initial(rate, clock);
    assert CallsWhere(start.calls, IsServing()) == {};
    assert CallsWhere(start.calls, WasServed()) == {};
    assert CallsWhere(start.calls, IsError()) == {};
  }

  lemma {:induction false} RunKeepsInv(s: State, events: seq<Event>)
    requires Inv(s) && LegalRun(s, events)
    ensures Inv(Run(s, events))
    decreases |events|
  {
    if events != [] {
      StepKeepsInv(s, events[0]);
      RunKeepsInv(Step(s, events[0]), events[1..]);
    }
  }

  // ----- what every schedule guarantees

  /** Any state the limiter can reach, from any start of the monotonic clock. */
  ghost predicate Reachable(s: State) {
    exists rate: real, clock: real, events :: ReachedBy(s, rate, clock, events)
  }

  ghost predicate ReachedBy(s: State, rate: real, clock: real, events: seq<Event>) {
    && rate >= 0.0 && clock >= 0.0 && LegalRun(Initial(rate, clock), events)
    && s == Run(Initial(rate, clock), events)
  }

  lemma ReachableInv(s: State)
    requires Reachable(s)
    ensures Inv(s)
  {
    var rate: real, clock: real, events :| ReachedBy(s, rate, clock, events);
    InitialInv(rate, clock);
    RunKeepsInv(Initial(rate, clock), events);
  }

  /** Consecutive grants are at least `1 / rate` apart. */
  lemma GrantsAreSpaced(s: State, i: nat)
    requires Reachable(s) && s.rate > 0.0 && 1 <= i < |s.grants|
    ensures s.grants[i] - s.grants[i - 1] >= 1.0 / s.rate
  {
    ReachableInv(s);
  }

  function Inside(low: real, high: real): (p: real -> bool) {
    (t: real) => low <= t <= high
  }

  lemma {:induction false} EarlierGrants(grants: seq<real>, gap: real)
    requires Spaced(grants, gap) && gap >= 0.0 && grants != []
    ensures forall i :: 0 <= i < |grants| - 1 ==> grants[i] + gap <= grants[|grants| - 1]
  {
    if |grants| > 1 {
      var n := |grants| - 1;
      EarlierGrants(grants[..n], gap);
      assert grants[n - 1] + gap <= grants[n];
    }
  }

  /** Only grants up to `late` can be counted, so the window may as well end there. */
  lemma {:induction false} CutWindow(grants: seq<real>, low: real, high: real, late: real)
    requires late <= high && forall i :: 0 <= i < |grants| ==> grants[i] <= late
    ensures Count(grants, Inside(low, high)) == Count(grants, Inside(low, late))
  {
    if grants != [] {
      CutWindow(grants[..|grants| - 1], low, high, late);
    }
  }

  /** The grants of a window leave one gap less than their number inside it. */
  lemma {:induction false} WindowHoldsGaps(grants: seq<real>, gap: real, low: real, high: real)
    requires Spaced(grants, gap) && gap >= 0.0 && Count(grants, Inside(low, high)) > 0
    ensures Times(Count(grants, Inside(low, high)) - 1, gap) <= high - low
  {
    var n := |grants| - 1;
    var last := grants[n];
    EarlierGrants(grants, gap);
    if !(low <= last <= high) {
      WindowHoldsGaps(grants[..n], gap, low, high);
    } else if Count(grants[..n], Inside(low, high)) > 0 {
      CutWindow(grants[..n], low, high, last - gap);
      WindowHoldsGaps(grants[..n], gap, low, last - gap);
    }
  }

  /** Any window of length `length` holds at most `length * rate + 1` grants. */
  lemma WindowHoldsFewGrants(s: State, low: real, length: real)
    requires Reachable(s) && s.rate > 0.0 && length >= 0.0
    ensures AtMost(Count(s.grants, Inside(low, low + length)), length, s.rate)
  {
    ReachableInv(s);
    GapPositive(s.rate);
    var k := Count(s.grants, Inside(low, low + length));
    if k > 0 {
      WindowHoldsGaps(s.grants, Gap(s.rate), low, low + length);
      FewGaps(k, length, s.rate);
    } else {
      NonNegative(length, s.rate);
    }
  }

  predicate AtMost(k: nat, length: real, rate: real) {
    k as real <= length * rate + 1.0
  }

  lemma FewGaps(k: nat, length: real, rate: real)
    requires k > 0 && rate > 0.0 && Times(k - 1, Gap(rate)) <= length
    ensures AtMost(k, length, rate)
  {
    TimesIsProduct(k - 1, Gap(rate));
    RateFromGap((k - 1) as real, length, rate);
  }

  lemma NonNegative(x: real, y: real)
    requires x >= 0.0 && y >= 0.0
    ensures x * y >= 0.0
  {
  }

  lemma RateFromGap(n: real, length: real, rate: real)
    requires rate > 0.0 && n * (1.0 / rate) <= length
    ensures n <= length * rate
  {
    var gap := 1.0 / rate;
    assert gap * rate == 1.0;
    assert n * gap * rate == n;
    NonNegative(length - n * gap, rate);
    assert (length - n * gap) * rate == length * rate - n * gap * rate;
  }

  /**
   * A cancelled waiter, queued or asleep with the lock, consumes no grant: the grants and the next
   * grant time are as before, and the lock it held is free again.
   */
  lemma CancelledWaiterConsumesNothing(s: State, id: int, now: real, timedOut: bool)
    requires Reachable(s) && Legal(s, Cancel(id, now, timedOut)) && s.calls[id] != Serving
    ensures var t := Step(s, Cancel(id, now, timedOut));
            && t.grants == s.grants && t.nextFetchAt == s.nextFetchAt && t.inFlight == s.inFlight
            && t.holder == (if s.calls[id].Sleeping? then None else s.holder)
            && id !in CallsWhere(t.calls, WasServed())
            && |t.grants| == |CallsWhere(t.calls, WasServed())|
  {
    ReachableInv(s);
    StepKeepsCounts(s, Cancel(id, now, timedOut));
  }

  /** Whoever takes the lock sleeps at most one gap, and only when the limiter is on. */
  lemma HolderSleepsAtMostOneGap(s: State, id: int, now: real, again: real)
    requires Reachable(s) && Legal(s, Acquire(id, now, again))
    ensures var t := Step(s, Acquire(id, now, again));
            t.calls[id].Sleeping? ==>
              s.rate > 0.0 && now < t.calls[id].until <= now + 1.0 / s.rate && t.calls[id].until == s.nextFetchAt
  {
    ReachableInv(s);
    if s.rate > 0.0 {
      GapPositive(s.rate);
    }
  }

  /** The books balance in every reachable state; at most one call holds the lock, and never with the limiter off. */
  lemma BooksBalance(s: State)
    requires Reachable(s)
    ensures s.fetchCalls == |s.calls| && s.fetchErrors == |CallsWhere(s.calls, IsError())|
    ensures s.inFlight == |CallsWhere(s.calls, IsServing())|
    ensures |s.grants| == |CallsWhere(s.calls, WasServed())|
    ensures forall i, j :: i in s.calls && j in s.calls && s.calls[i].Sleeping? && s.calls[j].Sleeping? ==> i == j
    ensures s.rate == 0.0 ==> forall i :: i in s.calls ==> !s.calls[i].Sleeping?
  {
    ReachableInv(s);
  }

  /** While a call waits something can happen: the holder wakes, or a queued call takes the free lock. */
  lemma WaitersCanMove(s: State, id: int)
    requires Reachable(s) && id in s.calls && (s.calls[id].Queued? || s.calls[id].Sleeping?)
    ensures exists e: Event :: Legal(s, e) && (e.Wake? || e.Acquire?)
  {
    ReachableInv(s);
    if s.holder.Some? {
      var h := s.holder.value;
      assert h in s.calls && s.calls[h].Sleeping?;
      assert Legal(s, Wake(h, MaxReal(s.clock, s.calls[h].until)));
    } else {
      assert Legal(s, Acquire(id, s.clock, s.clock));
    }
  }

  // ----- the fields, updated in place

  /** The limiter's share of `Runtime`; each method is one stretch of `fetch` between two awaits. */
  class Runtime {
    const rate: real
    var nextFetchAt: real
    var lockHolder: Option<int>
    var fetchInFlight: int
    var fetchCalls: nat
    var fetchErrors: nat
    ghost var clock: real
    var calls: map<int, Phase>  // where each coroutine stands
    ghost var grants: seq<real>

    ghost function Value(): (state: State)
      reads this
    {
      State(rate, clock, nextFetchAt, lockHolder, calls, fetchInFlight, fetchCalls, fetchErrors, grants)
    }

    constructor (rate: real, ghost clock: real)
      ensures Value() == Initial(rate, clock)
    {
      this.rate := rate;
      nextFetchAt, lockHolder, fetchInFlight, fetchCalls, fetchErrors := 0.0, None, 0, 0, 0;
      this.clock, calls, grants := clock, map[], [];
    }

    /** `fetch` is called: it queues for the lock, or raises when there is no client. */
    method Enter(id: int, ghost now: real, ready: bool) returns (refused: bool)
      requires Legal(Value(), Call(id, now, ready))
      modifies this
      ensures Value() == Step(old(Value()), Call(id, now, ready)) && refused == !ready
    {
      fetchCalls := fetchCalls + 1;
      clock, calls := now, calls[id := if ready then Queued else Done(false, Refused)];
      refused := !ready;
    }

    /** The lock is taken: either through at once, or asleep for `delay` with the lock held. */
    method TakeLock(id: int, now: real, again: real) returns (delay: real)
      requires Legal(Value(), Acquire(id, now, again))
      modifies this
      ensures Value() == Step(old(Value()), Acquire(id, now, again))
      ensures calls[id] == if delay > 0.0 then Sleeping(now + delay) else Serving
    {
      lockHolder := Some(id);
      delay := 0.0;
      if rate != 0.0 {
        delay := MaxReal(0.0, nextFetchAt - now);
        if delay > 0.0 {
          clock, calls := now, calls[id := Sleeping(now + delay)];
          return;
        }
      }
      PassLimiter(id, again);
    }

    /** After the sleep, if any: book the next grant time, release the lock, start the service. */
    method PassLimiter(id: int, now: real)
      modifies this
      ensures Value() == Grant(old(Value()), id, now)
    {
      if rate != 0.0 {
        nextFetchAt := now + 1.0 / rate;
      }
      lockHolder := None;
      fetchInFlight := fetchInFlight + 1;
      clock, calls, grants := now, calls[id := Serving], grants + [now];
    }

    /** The sleeping holder wakes. */
    method WakeUp(id: int, now: real)
      requires Legal(Value(), Wake(id, now))
      modifies this
      ensures Value() == Step(old(Value()), Wake(id, now))
    {
      PassLimiter(id, now);
    }

    /** The call ends, from wherever it is: `sleeping` and `serving` say which `finally` blocks run. */
    method Leave(id: int, ghost now: real, sleeping: bool, serving: bool, outcome: Outcome)
      requires id in calls && sleeping == calls[id].Sleeping? && serving == calls[id].Serving?
      modifies this
      ensures Value() == Finish(old(Value()), id, now, outcome)
    {
      if sleeping {
        lockHolder := None;
      }
      if serving {
        fetchInFlight := fetchInFlight - 1;
      }
      if outcome == Failed || outcome == TimedOut {
        fetchErrors := fetchErrors + 1;
      }
      clock, calls := now, calls[id := Done(serving, outcome)];
    }
  }

  /**
   * Any schedule of calls, performed on the fields in place, leaves them as the machine says; what
   * every schedule guarantees is thereby true of the object.
   */
  method Serve(rate: real, ghost clock: real, events: seq<Event>) returns (rt: Runtime)
    requires LegalRun(Initial(rate, clock), events) && rate >= 0.0 && clock >= 0.0
    ensures fresh(rt) && rt.Value() == Run(Initial(rate, clock), events) && Inv(rt.Value())
  {
    rt := new Runtime(rate, clock);
    ghost var start := Initial(rate, clock);
    InitialInv(rate, clock);
    for i := 0 to |events|
      invariant fresh(rt) && LegalRun(rt.Value(), events[i..]) && Inv(rt.Value())
      invariant Run(rt.Value(), events[i..]) == Run(start, events)
    {
      assert events[i..][0] == events[i] && events[i..][1..] == events[i + 1..];
      StepKeepsInv(rt.Value(), events[i]);
      Handle(rt, events[i]);
    }
  }

  /** One stretch of one call, between two awaits. */
  method Handle(rt: Runtime, e: Event)
    requires Legal(rt.Value(), e)
    modifies rt
    ensures rt.Value() == Step(old(rt.Value()), e)
  {
    match e
    case Call(id, now, ready) => var _ := rt.Enter(id, now, ready);
    case Acquire(id, now, again) => var _ := rt.TakeLock(id, now, again);
    case Wake(id, now) => rt.WakeUp(id, now);
    case Cancel(id, now, timedOut) =>
      var phase := rt.calls[id];
      rt.Leave(id, now, phase.Sleeping?, phase.Serving?, if timedOut then TimedOut else Abandoned);
    case Respond(id, now, ok) => rt.Leave(id, now, false, true, if ok then Answered else Failed);
  }
}
