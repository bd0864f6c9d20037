/** kneepoint/generator/ramp.py as a machine: enter a level, let it run, leave it through the level callback. */
module Ramp {
  import opened Basics
  import opened Records
  import opened Lifecycle
  import opened Session
  import opened Pool
  import opened Progress
  import opened Grouping
  import opened RampLevels
  import opened Retry

  /** What `on_level` is handed for one level. */
  datatype Slice = Slice(level: nat, sessions: seq<SessionRecord>, records: seq<RequestRecord>)

  datatype Stage = Between | Inside(level: Level) | Left(exceeded: bool, raised: Option<Raised>)

  /** `before` is the evidence as the latest level found it; `next` counts the levels already left. */
  datatype Ramp = Ramp(
    spec: SessionSpec,
    levels: seq<nat>,
    next: nat,
    sh: Shared,
    stage: Stage,
    before: Evidence,
    handed: seq<Slice>)

  datatype RampEvent =
    | EnterLevel
    | Inner(event: LevelEvent)
    | LeaveLevel(callback: Option<Raised>, callbackStops: bool)

  function StartRamp(spec: SessionSpec, levels: seq<nat>, sh: Shared): (ramp: Ramp) {
    var running := sh.(ev := sh.ev.(status := Running));
    Ramp(spec, levels, 0, running, Between, running.ev, [])
  }

  predicate AllowedNow(r: Ramp, e: RampEvent) {
    match e
    case EnterLevel => r.stage.Between?
    case Inner(event) => r.stage.Inside? && Allowed(r.stage.level, event)
    case LeaveLevel(_, _) => r.stage.Inside? && r.stage.level.main.Ended?
  }

  function Quit(r: Ramp, sh: Shared, status: RunStatus, exceeded: bool, raised: Option<Raised>): (ramp: Ramp) {
    r.(sh := sh.(ev := sh.ev.(status := status)), stage := Left(exceeded, raised))
  }

  /** `BudgetExceeded` is caught here and marks the level it came from. */
  function QuitOn(r: Ramp, sh: Shared, c: int, error: Raised): (ramp: Ramp) {
    if error == BudgetError then
      r.(sh := sh.(ev := SetLevel(sh.ev, c, BudgetExceeded)), stage := Left(true, None))
    else Quit(r, sh, StatusOf(error), false, Some(error))
  }

  function SliceOf(before: Evidence, now: Evidence, c: nat): (slice: Slice) {
    Slice(c,
          if |before.sessions| <= |now.sessions| then now.sessions[|before.sessions|..] else [],
          if |before.records| <= |now.records| then now.records[|before.records|..] else [])
  }

  function Leave(r: Ramp, l: Level, callback: Option<Raised>, callbackStops: bool): (ramp: Ramp)
    requires l.main.Ended?
  {
    var left := r.(next := r.next + 1);
    if l.main.raised.Some? then QuitOn(left, l.sh, l.concurrency, l.main.raised.value)
    else
      var told := left.(handed := r.handed + [SliceOf(r.before, l.sh.ev, l.concurrency)]);
      if callback.Some? then QuitOn(told, l.sh, l.concurrency, callback.value)
      else
        var sh := if callbackStops then l.sh.(acct := Halt(l.sh.acct)) else l.sh;
        if sh.acct.stopped then Quit(told, sh, Stopped, false, None)
        else told.(sh := sh, stage := Between)
  }

  function ApplyRamp(r: Ramp, e: RampEvent): (ramp: Ramp)
    requires AllowedNow(r, e)
  {
    match e
    case EnterLevel =>
      if r.next >= |r.levels| then Quit(r, r.sh, Completed, false, None)
      else if r.sh.acct.stopped then Quit(r, r.sh, Stopped, false, None)
      else r.(stage := Inside(Begin(r.sh, r.levels[r.next], r.spec)), before := r.sh.ev)
    case Inner(event) => r.(stage := Inside(Apply(r.stage.level, event)))
    case LeaveLevel(callback, callbackStops) => Leave(r, r.stage.level, callback, callbackStops)
  }

  ghost predicate IsRampRun(r: Ramp, es: seq<RampEvent>, q: Ramp)
    decreases |es|
  {
    if es == [] then q == r else AllowedNow(r, es[0]) && IsRampRun(ApplyRamp(r, es[0]), es[1..], q)
  }

  /** The shared objects as they are right now. */
  function Now(r: Ramp): (shared: Shared) {
    if r.stage.Inside? then r.stage.level.sh else r.sh
  }

  // ----- levels that are over

  function AllRecords(slices: seq<Slice>): (s: seq<RequestRecord>) {
    if slices == [] then [] else AllRecords(slices[..|slices| - 1]) + slices[|slices| - 1].records
  }

  function AllSessions(slices: seq<Slice>): (s: seq<SessionRecord>) {
    if slices == [] then [] else AllSessions(slices[..|slices| - 1]) + slices[|slices| - 1].sessions
  }

  /** A slice is handed over as its level's and holds that level's evidence only. */
  ghost predicate OwnSlice(s: Slice, c: nat) {
    && s.level == c
    && (forall i :: 0 <= i < |s.records| ==> s.records[i].concurrency == c)
    && (forall i :: 0 <= i < |s.sessions| ==> s.sessions[i].concurrency == c)
  }

  /** A level's own slice, with a finished session for each of its workers. */
  ghost predicate FullSlice(s: Slice, c: nat) {
    OwnSlice(s, c) && |s.sessions| >= c
  }

  /** Slice after slice, each belongs to the level at its place in the list. */
  ghost predicate OwnSlices(handed: seq<Slice>, levels: seq<nat>) {
    |handed| <= |levels| && forall j :: 0 <= j < |handed| ==> OwnSlice(handed[j], levels[j])
  }

  ghost predicate Paid(records: seq<RequestRecord>, c: int, maxAttempts: int) {
    Count(records, OfLevel(c)) <= maxAttempts * Count(records, FirstOfLevel(c))
  }

  /** The first `n` levels completed: their slices make up the evidence, their statuses say so. */
  ghost predicate CompletedLevels(start: Evidence, levels: seq<nat>, n: nat, ev: Evidence, handed: seq<Slice>,
                                  maxAttempts: int)
  {
    && n <= |levels|
    && Sliced(start, levels, n, ev, handed)
    && StatusPrefix(start, levels, n, ev)
    && AllCompleted(levels, n, ev)
    && AllPaid(levels, n, ev.records, maxAttempts)
    && RecordsAmong(start, levels, n, ev.records)
  }

  ghost predicate Sliced(start: Evidence, levels: seq<nat>, n: nat, ev: Evidence, handed: seq<Slice>)
    requires n <= |levels|
  {
    && |handed| == n
    && ev.records == start.records + AllRecords(handed)
    && ev.sessions == start.sessions + AllSessions(handed)
    && (forall j :: 0 <= j < n ==> FullSlice(handed[j], levels[j]))
  }

  ghost predicate AllCompleted(levels: seq<nat>, n: nat, ev: Evidence)
    requires n <= |levels|
  {
    forall j :: 0 <= j < n ==> levels[j] in ev.levelStatus && ev.levelStatus[levels[j]] == Completed
  }

  ghost predicate AllPaid(levels: seq<nat>, n: nat, records: seq<RequestRecord>, maxAttempts: int)
    requires n <= |levels|
  {
    forall j :: 0 <= j < n ==> Paid(records, levels[j], maxAttempts)
  }

  ghost predicate RecordsAmong(start: Evidence, levels: seq<nat>, n: nat, records: seq<RequestRecord>) {
    forall i :: |start.records| <= i < |records| ==> Among(levels, n, records[i].concurrency)
  }

  predicate Among(levels: seq<nat>, n: nat, c: int) {
    exists j :: 0 <= j < n && j < |levels| && levels[j] == c
  }

  /** Statuses are recorded for exactly the first `n` levels, besides what was there before. */
  ghost predicate StatusPrefix(start: Evidence, levels: seq<nat>, n: nat, ev: Evidence) {
    && n <= |levels|
    && (forall j :: 0 <= j < n ==> levels[j] in ev.levelStatus)
    && (forall k :: k in ev.levelStatus && k !in start.levelStatus ==> Among(levels, n, k))
  }

  /** The evidence the run started from says nothing about this ramp's levels. */
  ghost predicate FreshFor(start: Evidence, levels: seq<nat>) {
    && (forall j :: 0 <= j < |levels| ==> levels[j] !in start.levelStatus)
    && (forall i, j :: 0 <= i < |start.records| && 0 <= j < |levels| ==> start.records[i].concurrency != levels[j])
  }

  ghost predicate RampInv(r: Ramp, start: Evidence) {
    && Ascending(r.levels) && FreshFor(start, r.levels)
    && SharedInv(Now(r), r.spec.maxAttempts)
    && StageInv(r, start)
  }

  ghost predicate StageInv(r: Ramp, start: Evidence) {
    match r.stage
    case Between => CompletedLevels(start, r.levels, r.next, r.sh.ev, r.handed, r.spec.maxAttempts)
    case Inside(l) =>
      && InsideInv(r, l)
      && CompletedLevels(start, r.levels, r.next, r.before, r.handed, r.spec.maxAttempts)
    case Left(_, _) => EndInv(r, start) && WholeWhenCompleted(r, start)
  }

  /** Only a run that held every level to its end is marked completed. */
  ghost predicate WholeWhenCompleted(r: Ramp, start: Evidence) {
    r.sh.ev.status == Completed ==>
      r.next == |r.levels| && CompletedLevels(start, r.levels, r.next, r.sh.ev, r.handed, r.spec.maxAttempts)
  }

  ghost predicate InsideInv(r: Ramp, l: Level) {
    && r.next < |r.levels| && l.concurrency == r.levels[r.next] && l.spec == r.spec
    && LevelInv(l) && Progressing(l, r.before) && StatusHere(l, r.before)
  }

  /** The current level's own status: completed exactly when it ended so, and then with enough sessions. */
  ghost predicate StatusHere(l: Level, before: Evidence) {
    && l.concurrency in l.sh.ev.levelStatus
    && (l.main.Ended? && l.main.raised.None? && !l.sh.acct.stopped ==>
          l.sh.ev.levelStatus[l.concurrency] == Completed)
    && (l.main.Ended? && l.sh.ev.levelStatus[l.concurrency] == Completed ==> EnoughSessions(l, before))
  }

  ghost predicate EnoughSessions(l: Level, before: Evidence) {
    |l.sh.ev.sessions| - |before.sessions| >= l.concurrency
  }

  /** How a ramp that is over reads: a prefix of the levels, all but possibly the last completed. */
  ghost predicate EndInv(r: Ramp, start: Evidence) {
    CompletedLevels(start, r.levels, r.next, r.sh.ev, r.handed, r.spec.maxAttempts) || LastLevelCut(r, start)
  }

  /** The last level entered was left early, or was marked after it completed. */
  ghost predicate LastLevelCut(r: Ramp, start: Evidence) {
    && 1 <= r.next <= |r.levels|
    && |r.handed| >= r.next - 1
    && var c := r.levels[r.next - 1];
       && CompletedLevels(start, r.levels, r.next - 1, r.before, r.handed[..r.next - 1], r.spec.maxAttempts)
       && Extends(r.before, r.sh.ev, c)
       && c in r.sh.ev.levelStatus
       && (r.sh.ev.levelStatus[c] == Completed ==> |r.sh.ev.sessions| - |r.before.sessions| >= c)
       && Paid(r.sh.ev.records, c, r.spec.maxAttempts)
       && (r.stage == Left(false, None) ==> |r.handed| == r.next)
       && (|r.handed| > r.next - 1 ==>
             r.handed == r.handed[..r.next - 1] + [SliceOf(r.before, r.sh.ev, c)])
  }

  // ----- one level added to the completed ones

  /** Records of another level do not move this level's counts. */
  lemma PaidKept(before: Evidence, now: Evidence, c: int, d: int, maxAttempts: int)
    requires Extends(before, now, c) && d != c && Paid(before.records, d, maxAttempts)
    ensures Paid(now.records, d, maxAttempts)
  {
    var added := now.records[|before.records|..];
    assert now.records == before.records + added;
    forall r | r in added
      ensures r.concurrency == c
    {
      var i :| 0 <= i < |added| && added[i] == r;
      assert now.records[|before.records| + i] == r;
    }
    CountConcat(before.records, added, OfLevel(d));
    CountConcat(before.records, added, FirstOfLevel(d));
    CountZero(added, OfLevel(d));
    CountZero(added, FirstOfLevel(d));
  }

  lemma SliceIsFull(before: Evidence, now: Evidence, c: nat)
    requires Extends(before, now, c) && |now.sessions| - |before.sessions| >= c
    ensures FullSlice(SliceOf(before, now, c), c)
    ensures now.records == before.records + SliceOf(before, now, c).records
    ensures now.sessions == before.sessions + SliceOf(before, now, c).sessions
  {
  }

  lemma AmongMore(levels: seq<nat>, n: nat, m: nat, c: int)
    requires Among(levels, n, c) && n <= m
    ensures Among(levels, m, c)
  {
  }

  lemma StatusGrows(start: Evidence, levels: seq<nat>, n: nat, before: Evidence, now: Evidence)
    requires n < |levels| && StatusPrefix(start, levels, n, before) && Ascending(levels)
    requires Extends(before, now, levels[n]) && levels[n] in now.levelStatus
    ensures StatusPrefix(start, levels, n + 1, now)
    ensures forall j :: 0 <= j < n ==> now.levelStatus[levels[j]] == before.levelStatus[levels[j]]
  {
    forall j | 0 <= j < n
      ensures levels[j] != levels[n] && levels[j] in now.levelStatus
    {
      assert levels[j] in before.levelStatus;
    }
    forall k | k in now.levelStatus && k !in start.levelStatus
      ensures Among(levels, n + 1, k)
    {
      if k == levels[n] {
        assert levels[n] == k;
      } else {
        AmongMore(levels, n, n + 1, k);
      }
    }
  }

  lemma RecordsStayAmong(start: Evidence, levels: seq<nat>, n: nat, before: Evidence, now: Evidence)
    requires n < |levels| && Extends(before, now, levels[n]) && RecordsAmong(start, levels, n, before.records)
    ensures RecordsAmong(start, levels, n + 1, now.records)
  {
    forall i | |start.records| <= i < |now.records|
      ensures Among(levels, n + 1, now.records[i].concurrency)
    {
      if i < |before.records| {
        assert now.records[i] == now.records[..|before.records|][i];
        AmongMore(levels, n, n + 1, now.records[i].concurrency);
      } else {
        assert levels[n] == now.records[i].concurrency;
      }
    }
  }

  lemma PaidStays(levels: seq<nat>, n: nat, before: Evidence, now: Evidence, maxAttempts: int)
    requires Ascending(levels) && n < |levels| && Extends(before, now, levels[n])
    requires AllPaid(levels, n, before.records, maxAttempts) && Paid(now.records, levels[n], maxAttempts)
    ensures AllPaid(levels, n + 1, now.records, maxAttempts)
  {
    forall j | 0 <= j < n
      ensures Paid(now.records, levels[j], maxAttempts)
    {
      PaidKept(before, now, levels[n], levels[j], maxAttempts);
    }
  }

  lemma SlicedMore(start: Evidence, levels: seq<nat>, n: nat, before: Evidence, now: Evidence, handed: seq<Slice>)
    requires n < |levels| && Sliced(start, levels, n, before, handed)
    requires Extends(before, now, levels[n]) && |now.sessions| - |before.sessions| >= levels[n]
    ensures Sliced(start, levels, n + 1, now, handed + [SliceOf(before, now, levels[n])])
  {
    var slice := SliceOf(before, now, levels[n]);
    var handed' := handed + [slice];
    assert handed'[..n] == handed;
    SliceIsFull(before, now, levels[n]);
    assert start.records + AllRecords(handed) + slice.records == start.records + AllRecords(handed');
    assert start.sessions + AllSessions(handed) + slice.sessions == start.sessions + AllSessions(handed');
  }

  lemma OneMoreLevel(start: Evidence, levels: seq<nat>, n: nat, before: Evidence, now: Evidence,
                     handed: seq<Slice>, maxAttempts: int)
    requires Ascending(levels) && n < |levels|
    requires CompletedLevels(start, levels, n, before, handed, maxAttempts)
    requires Extends(before, now, levels[n]) && levels[n] in now.levelStatus
    requires now.levelStatus[levels[n]] == Completed
    requires |now.sessions| - |before.sessions| >= levels[n]
    requires Paid(now.records, levels[n], maxAttempts)
    ensures CompletedLevels(start, levels, n + 1, now, handed + [SliceOf(before, now, levels[n])], maxAttempts)
  {
    SlicedMore(start, levels, n, before, now, handed);
    StatusGrows(start, levels, n, before, now);
    PaidStays(levels, n, before, now, maxAttempts);
    RecordsStayAmong(start, levels, n, before, now);
  }

  // ----- the invariant over every ramp run

  lemma NoRecordsYet(r: Ramp, start: Evidence)
    requires RampInv(r, start) && r.stage.Between? && r.next < |r.levels|
    ensures forall x :: x in r.sh.ev.records ==> x.concurrency != r.levels[r.next]
  {
    var ev := r.sh.ev;
    forall i | 0 <= i < |ev.records|
      ensures ev.records[i].concurrency != r.levels[r.next]
    {
      if i < |start.records| {
        assert ev.records[i] == start.records[i];
      } else {
        assert Among(r.levels, r.next, ev.records[i].concurrency);
      }
    }
  }

  lemma BegunLevel(r: Ramp, q: Ramp)
    requires r.next < |r.levels| && !r.sh.acct.stopped && SharedInv(r.sh, r.spec.maxAttempts)
    requires forall x :: x in r.sh.ev.records ==> x.concurrency != r.levels[r.next]
    requires q == r.(stage := Inside(Begin(r.sh, r.levels[r.next], r.spec)), before := r.sh.ev)
    ensures InsideInv(q, q.stage.level)
  {
    BeginInv(r.sh, r.levels[r.next], r.spec);
    BeginProgress(r.sh, r.levels[r.next], r.spec);
  }

  lemma EnterKeepsInv(r: Ramp, start: Evidence)
    requires RampInv(r, start) && AllowedNow(r, EnterLevel)
    ensures RampInv(ApplyRamp(r, EnterLevel), start)
  {
    var q := ApplyRamp(r, EnterLevel);
    if r.next < |r.levels| && !r.sh.acct.stopped {
      NoRecordsYet(r, start);
      BegunLevel(r, q);
    } else {
      SharedStays(r.sh, q.sh, r.spec.maxAttempts);
      QuitsWhole(r, start, if r.next >= |r.levels| then Completed else Stopped);
    }
  }

  lemma QuitsWhole(r: Ramp, start: Evidence, status: RunStatus)
    requires CompletedLevels(start, r.levels, r.next, r.sh.ev, r.handed, r.spec.maxAttempts)
    requires status == Completed ==> r.next >= |r.levels|
    ensures StageInv(Quit(r, r.sh, status, false, None), start)
  {
    var ev := r.sh.ev.(status := status);
    assert CompletedLevels(start, r.levels, r.next, ev, r.handed, r.spec.maxAttempts);
  }

  lemma StatusHereStays(l: Level, e: LevelEvent, before: Evidence)
    requires LevelInv(l) && Allowed(l, e) && Progressing(l, before) && StatusHere(l, before)
    ensures StatusHere(Apply(l, e), before)
  {
    if e.Act? {
      TouchRecords(l.spec, l.workers[e.worker].place.sess, e.event, e.spendSeen, l.sh);
    } else if e.Join? && Apply(l, e).main == Ended(Completed, None) {
      CompletedHasSessions(l, e, before);
    }
  }

  lemma InnerKeepsInv(r: Ramp, start: Evidence, e: LevelEvent)
    requires RampInv(r, start) && AllowedNow(r, Inner(e))
    ensures RampInv(ApplyRamp(r, Inner(e)), start)
  {
    var l := r.stage.level;
    assert InsideInv(r, l);
    ApplyKeepsInv(l, e);
    ApplyKeepsProgress(l, e, r.before);
    StatusHereStays(l, e, r.before);
    var q := ApplyRamp(r, Inner(e));
    assert InsideInv(q, q.stage.level);
  }

  lemma LevelIsPaid(l: Level, before: Evidence)
    requires LevelInv(l) && Progressing(l, before)
    ensures Paid(l.sh.ev.records, l.concurrency, l.spec.maxAttempts)
  {
    SlackNonNegative(l);
  }

  /** What leaving a level changes: the bookkeeping around the evidence, never its contents. */
  ghost predicate LeavesAs(r: Ramp, l: Level, q: Ramp) {
    && q.levels == r.levels && q.spec == r.spec && q.next == r.next + 1 && q.before == r.before
    && !q.stage.Inside?
    && q.sh.ev.records == l.sh.ev.records && q.sh.ev.sessions == l.sh.ev.sessions
    && q.sh.ev.attempts == l.sh.ev.attempts
    && q.sh.used == l.sh.used && q.sh.quiet == l.sh.quiet
    && (q.sh.acct == l.sh.acct || q.sh.acct == Halt(l.sh.acct))
    && (forall k :: k != l.concurrency ==>
          (k in q.sh.ev.levelStatus <==> k in l.sh.ev.levelStatus)
          && (k in l.sh.ev.levelStatus ==> q.sh.ev.levelStatus[k] == l.sh.ev.levelStatus[k]))
    && (l.concurrency in l.sh.ev.levelStatus ==> l.concurrency in q.sh.ev.levelStatus)
    && (l.concurrency in q.sh.ev.levelStatus && q.sh.ev.levelStatus[l.concurrency] == Completed ==>
          l.concurrency in l.sh.ev.levelStatus && l.sh.ev.levelStatus[l.concurrency] == Completed)
    && (q.handed == r.handed || q.handed == r.handed + [SliceOf(r.before, l.sh.ev, l.concurrency)])
    && (q.stage == Left(false, None) ==> q.handed == r.handed + [SliceOf(r.before, l.sh.ev, l.concurrency)])
    && (q.stage.Left? ==> q.sh.ev.status != Completed)
  }

  lemma LeaveFacts(r: Ramp, l: Level, callback: Option<Raised>, callbackStops: bool)
    requires l.main.Ended?
    ensures LeavesAs(r, l, Leave(r, l, callback, callbackStops))
    ensures var q := Leave(r, l, callback, callbackStops);
            l.main.raised.None? && callback.None? && !l.sh.acct.stopped ==>
              && q.handed == r.handed + [SliceOf(r.before, l.sh.ev, l.concurrency)]
              && q.sh.ev.levelStatus == l.sh.ev.levelStatus
    ensures var q := Leave(r, l, callback, callbackStops);
            l.main.raised.Some? || callback.Some? || l.sh.acct.stopped ==> q.stage.Left?
  {
  }

  lemma SharedStays(sh: Shared, sh': Shared, maxAttempts: int)
    requires SharedInv(sh, maxAttempts)
    requires sh'.ev.records == sh.ev.records && sh'.ev.sessions == sh.ev.sessions
    requires sh'.ev.attempts == sh.ev.attempts && sh'.used == sh.used && sh'.quiet == sh.quiet
    requires sh'.acct == sh.acct || sh'.acct == Halt(sh.acct)
    ensures SharedInv(sh', maxAttempts)
  {
    if sh.quiet {
      HaltKeepsAccounts(sh.acct, sh.ev.records);
    }
  }

  lemma LeavesExtended(r: Ramp, l: Level, q: Ramp)
    requires LeavesAs(r, l, q) && Extends(r.before, l.sh.ev, l.concurrency)
    ensures Extends(r.before, q.sh.ev, l.concurrency)
    ensures SliceOf(r.before, q.sh.ev, l.concurrency) == SliceOf(r.before, l.sh.ev, l.concurrency)
  {
  }

  /** What is known of a level that is about to be left. */
  ghost predicate Leaving(r: Ramp, l: Level, start: Evidence) {
    && r.next < |r.levels| && l.concurrency == r.levels[r.next] && l.main.Ended?
    && CompletedLevels(start, r.levels, r.next, r.before, r.handed, r.spec.maxAttempts)
    && Extends(r.before, l.sh.ev, l.concurrency) && StatusHere(l, r.before)
    && Paid(l.sh.ev.records, l.concurrency, r.spec.maxAttempts)
  }

  lemma LeavingFacts(r: Ramp, start: Evidence)
    requires RampInv(r, start) && r.stage.Inside? && r.stage.level.main.Ended?
    ensures Leaving(r, r.stage.level, start)
  {
    assert InsideInv(r, r.stage.level);
    LevelIsPaid(r.stage.level, r.before);
  }

  /** However the level was left, everything before it is still complete. */
  lemma PartialEnd(r: Ramp, l: Level, start: Evidence, q: Ramp)
    requires Leaving(r, l, start) && LeavesAs(r, l, q)
    ensures LastLevelCut(q, start)
  {
    LeavesExtended(r, l, q);
    assert q.handed[..r.next] == r.handed;
  }

  /** A level left as completed joins the completed ones. */
  lemma FullEnd(r: Ramp, l: Level, start: Evidence, q: Ramp)
    requires Leaving(r, l, start) && LeavesAs(r, l, q) && Ascending(r.levels)
    requires l.sh.ev.levelStatus[l.concurrency] == Completed
    requires q.handed == r.handed + [SliceOf(r.before, l.sh.ev, l.concurrency)]
    requires q.sh.ev.levelStatus == l.sh.ev.levelStatus
    ensures CompletedLevels(start, q.levels, q.next, q.sh.ev, q.handed, q.spec.maxAttempts)
  {
    LeavesExtended(r, l, q);
    OneMoreLevel(start, r.levels, r.next, r.before, q.sh.ev, r.handed, r.spec.maxAttempts);
  }

  lemma LeaveKeepsStage(r: Ramp, l: Level, start: Evidence, callback: Option<Raised>, callbackStops: bool)
    requires Leaving(r, l, start) && Ascending(r.levels)
    ensures StageInv(Leave(r, l, callback, callbackStops), start)
  {
    var q := Leave(r, l, callback, callbackStops);
    LeaveFacts(r, l, callback, callbackStops);
    if l.main.raised.None? && callback.None? && !l.sh.acct.stopped {
      FullEnd(r, l, start, q);
    } else {
      PartialEnd(r, l, start, q);
    }
  }

  lemma LeaveKeepsInv(r: Ramp, start: Evidence, callback: Option<Raised>, callbackStops: bool)
    requires RampInv(r, start) && AllowedNow(r, LeaveLevel(callback, callbackStops))
    ensures RampInv(ApplyRamp(r, LeaveLevel(callback, callbackStops)), start)
  {
    var l := r.stage.level;
    LeavingFacts(r, start);
    LeaveKeepsStage(r, l, start, callback, callbackStops);
    LeaveFacts(r, l, callback, callbackStops);
    SharedStays(l.sh, Leave(r, l, callback, callbackStops).sh, r.spec.maxAttempts);
  }

  lemma RampStepKeepsInv(r: Ramp, e: RampEvent, start: Evidence)
    requires RampInv(r, start) && AllowedNow(r, e)
    ensures RampInv(ApplyRamp(r, e), start)
  {
    match e
    case EnterLevel => EnterKeepsInv(r, start);
    case Inner(event) => InnerKeepsInv(r, start, event);
    case LeaveLevel(callback, callbackStops) => LeaveKeepsInv(r, start, callback, callbackStops);
  }

  lemma SameRamp(r: Ramp, e: RampEvent)
    requires AllowedNow(r, e)
    ensures ApplyRamp(r, e).levels == r.levels && ApplyRamp(r, e).spec == r.spec
  {
  }

  lemma {:induction false} RampRunKeepsInv(r: Ramp, es: seq<RampEvent>, q: Ramp, start: Evidence)
    requires RampInv(r, start) && IsRampRun(r, es, q)
    ensures RampInv(q, start) && q.levels == r.levels && q.spec == r.spec
    decreases |es|
  {
    if es != [] {
      RampStepKeepsInv(r, es[0], start);
      SameRamp(r, es[0]);
      RampRunKeepsInv(ApplyRamp(r, es[0]), es[1..], q, start);
    }
  }

  lemma StartIsFine(spec: SessionSpec, levels: seq<nat>, sh: Shared)
    requires Ascending(levels) && FreshFor(sh.ev, levels) && SharedInv(sh, spec.maxAttempts)
    ensures RampInv(StartRamp(spec, levels, sh), sh.ev)
  {
  }

  // ----- results

  lemma {:induction false} SlicesCount(handed: seq<Slice>, j: nat, c: int)
    requires j < |handed| && forall i :: 0 <= i < |handed[j].sessions| ==> handed[j].sessions[i].concurrency == c
    ensures Count(AllSessions(handed), SessionOfLevel(c)) >= |handed[j].sessions|
  {
    var last := |handed| - 1;
    CountConcat(AllSessions(handed[..last]), handed[last].sessions, SessionOfLevel(c));
    if j == last {
      CountAll(handed[j].sessions, c);
    } else {
      SlicesCount(handed[..last], j, c);
    }
  }

  lemma {:induction false} CountAll(sessions: seq<SessionRecord>, c: int)
    requires forall i :: 0 <= i < |sessions| ==> sessions[i].concurrency == c
    ensures Count(sessions, SessionOfLevel(c)) == |sessions|
  {
    if sessions != [] {
      CountAll(sessions[..|sessions| - 1], c);
    }
  }

  lemma CompletedHasEnough(start: Evidence, levels: seq<nat>, n: nat, ev: Evidence, handed: seq<Slice>,
                           maxAttempts: int, j: nat)
    requires CompletedLevels(start, levels, n, ev, handed, maxAttempts) && j < n
    ensures Count(ev.sessions, SessionOfLevel(levels[j])) >= levels[j]
  {
    assert FullSlice(handed[j], levels[j]);
    CountConcat(start.sessions, AllSessions(handed), SessionOfLevel(levels[j]));
    SlicesCount(handed, j, levels[j]);
  }

  lemma ExtendedCount(before: Evidence, now: Evidence, c: int, d: int)
    requires Extends(before, now, c)
    ensures Count(now.sessions, SessionOfLevel(d)) >= Count(before.sessions, SessionOfLevel(d))
    ensures Count(now.sessions, SessionOfLevel(c)) >= |now.sessions| - |before.sessions|
  {
    var added := now.sessions[|before.sessions|..];
    assert now.sessions == before.sessions + added;
    CountConcat(before.sessions, added, SessionOfLevel(d));
    CountConcat(before.sessions, added, SessionOfLevel(c));
    CountAll(added, c);
  }

  /** The state in which a ramp run is over. */
  ghost predicate EndsAs(spec: SessionSpec, levels: seq<nat>, sh: Shared, es: seq<RampEvent>, q: Ramp) {
    && Ascending(levels) && FreshFor(sh.ev, levels) && SharedInv(sh, spec.maxAttempts)
    && IsRampRun(StartRamp(spec, levels, sh), es, q)
    && q.stage.Left?
  }

  lemma EndHolds(spec: SessionSpec, levels: seq<nat>, sh: Shared, es: seq<RampEvent>, q: Ramp)
    requires EndsAs(spec, levels, sh, es, q)
    ensures q.levels == levels && q.spec == spec
    ensures EndInv(q, sh.ev.(status := Running)) && WholeWhenCompleted(q, sh.ev.(status := Running))
    ensures FreshFor(sh.ev.(status := Running), levels)
    ensures SharedInv(q.sh, spec.maxAttempts)
  {
    var start := StartRamp(spec, levels, sh).sh.ev;
    SharedStays(sh, StartRamp(spec, levels, sh).sh, spec.maxAttempts);
    StartIsFine(spec, levels, StartRamp(spec, levels, sh).sh);
    RampRunKeepsInv(StartRamp(spec, levels, sh), es, q, start);
  }

  /**
   * Every ramp run that is over: the levels with a recorded status are a prefix of the strictly
   * ascending level list, all of that prefix but possibly its last level is completed, and every
   * completed level with N workers published at least N sessions. A run marked completed completed
   * every level.
   */
  lemma StatusesFormPrefix(spec: SessionSpec, levels: seq<nat>, sh: Shared, es: seq<RampEvent>, q: Ramp)
    requires EndsAs(spec, levels, sh, es, q)
    ensures q.next <= |levels|
    ensures forall j :: 0 <= j < |levels| ==> (levels[j] in q.sh.ev.levelStatus <==> j < q.next)
    ensures forall j :: 0 <= j < q.next - 1 ==> q.sh.ev.levelStatus[levels[j]] == Completed
    ensures forall j :: 0 <= j < q.next && q.sh.ev.levelStatus[levels[j]] == Completed ==>
              Count(q.sh.ev.sessions, SessionOfLevel(levels[j])) >= levels[j]
    ensures q.sh.ev.status == Completed ==>
              forall j :: 0 <= j < |levels| ==>
                levels[j] in q.sh.ev.levelStatus && q.sh.ev.levelStatus[levels[j]] == Completed
  {
    EndHolds(spec, levels, sh, es, q);
    var start := sh.ev.(status := Running);
    PrefixOfStatuses(q, start);
    forall j | 0 <= j < q.next && q.sh.ev.levelStatus[levels[j]] == Completed
      ensures Count(q.sh.ev.sessions, SessionOfLevel(levels[j])) >= levels[j]
    {
      EnoughAtEnd(q, start, j);
    }
  }

  /**
   * A ramp over the level list of an accepted start, stop and step: when the run is marked completed,
   * the start and the stop level were both held to their end, each with a session per worker, and the
   * level callback was called for start first and for stop last.
   */
  lemma AcceptedRampReachesStop(spec: SessionSpec, start: int, stop: int, step: int, sh: Shared,
                                es: seq<RampEvent>, q: Ramp)
    requires 1 <= start <= stop && step > 0
    requires FreshFor(sh.ev, AcceptedLevels(start, stop, step)) && SharedInv(sh, spec.maxAttempts)
    requires IsRampRun(StartRamp(spec, AcceptedLevels(start, stop, step), sh), es, q)
    requires q.stage == Left(false, None) && q.sh.ev.status == Completed
    ensures CompletedWith(q.sh.ev, start) && CompletedWith(q.sh.ev, stop)
    ensures q.handed != [] && q.handed[0].level == start && q.handed[|q.handed| - 1].level == stop
  {
    var levels := AcceptedLevels(start, stop, step);
    assert EndsAs(spec, levels, sh, es, q);
    StatusesFormPrefix(spec, levels, sh, es, q);
    SlicesMakeTheResult(spec, levels, sh, es, q);
    var last := |levels| - 1;
    assert levels[0] in q.sh.ev.levelStatus && levels[last] in q.sh.ev.levelStatus;
    assert last < q.next && |q.handed| == |levels|;
    assert OwnSlice(q.handed[0], levels[0]) && OwnSlice(q.handed[last], levels[last]);
  }

  ghost predicate CompletedWith(ev: Evidence, c: int) {
    && c in ev.levelStatus && ev.levelStatus[c] == Completed
    && Count(ev.sessions, SessionOfLevel(c)) >= c
  }

  lemma PrefixOfStatuses(q: Ramp, start: Evidence)
    requires EndInv(q, start) && FreshFor(start, q.levels) && Ascending(q.levels)
    ensures StatusPrefix(start, q.levels, q.next, q.sh.ev)
    ensures forall j :: 0 <= j < |q.levels| ==> (q.levels[j] in q.sh.ev.levelStatus <==> j < q.next)
    ensures forall j :: 0 <= j < q.next - 1 ==> q.sh.ev.levelStatus[q.levels[j]] == Completed
  {
    if LastLevelCut(q, start) {
      StatusGrows(start, q.levels, q.next - 1, q.before, q.sh.ev);
    }
    assert StatusPrefix(start, q.levels, q.next, q.sh.ev);
    forall j | q.next <= j < |q.levels|
      ensures q.levels[j] !in q.sh.ev.levelStatus
    {
      assert !Among(q.levels, q.next, q.levels[j]);
    }
  }

  lemma EnoughAtEnd(q: Ramp, start: Evidence, j: nat)
    requires EndInv(q, start) && Ascending(q.levels) && FreshFor(start, q.levels)
    requires j < q.next && q.next <= |q.levels| && q.levels[j] in q.sh.ev.levelStatus
    requires q.sh.ev.levelStatus[q.levels[j]] == Completed
    ensures Count(q.sh.ev.sessions, SessionOfLevel(q.levels[j])) >= q.levels[j]
  {
    if CompletedLevels(start, q.levels, q.next, q.sh.ev, q.handed, q.spec.maxAttempts) {
      CompletedHasEnough(start, q.levels, q.next, q.sh.ev, q.handed, q.spec.maxAttempts, j);
    } else {
      ExtendedCount(q.before, q.sh.ev, q.levels[q.next - 1], q.levels[j]);
      if j < q.next - 1 {
        CompletedHasEnough(start, q.levels, q.next - 1, q.before, q.handed[..q.next - 1], q.spec.maxAttempts, j);
      }
    }
  }

  /**
   * However a ramp ends, the j-th call of the level callback was handed the j-th level, with sessions and
   * records that all carry that level. On a normal return there was one call for each level entered, and
   * the slices concatenate to everything the run added.
   */
  lemma SlicesMakeTheResult(spec: SessionSpec, levels: seq<nat>, sh: Shared, es: seq<RampEvent>, q: Ramp)
    requires EndsAs(spec, levels, sh, es, q)
    ensures OwnSlices(q.handed, levels)
    ensures q.stage == Left(false, None) ==>
              && |q.handed| == q.next
              && q.sh.ev.records == sh.ev.records + AllRecords(q.handed)
              && q.sh.ev.sessions == sh.ev.sessions + AllSessions(q.handed)
    ensures RecordsAmong(sh.ev, levels, q.next, q.sh.ev.records)
  {
    EndHolds(spec, levels, sh, es, q);
    SlicesAtEnd(q, sh.ev.(status := Running));
    SlicesAreOwn(q, sh.ev.(status := Running));
  }

  lemma SlicesAreOwn(q: Ramp, start: Evidence)
    requires EndInv(q, start)
    ensures OwnSlices(q.handed, q.levels)
  {
    if CompletedLevels(start, q.levels, q.next, q.sh.ev, q.handed, q.spec.maxAttempts) {
      FullSlicesAreOwn(start, q.levels, q.next, q.sh.ev, q.handed);
    } else {
      var n, c := q.next - 1, q.levels[q.next - 1];
      FullSlicesAreOwn(start, q.levels, n, q.before, q.handed[..n]);
      ExtensionIsOwn(q.before, q.sh.ev, c);
      OneMoreSlice(q.handed[..n], q.levels, SliceOf(q.before, q.sh.ev, c), q.handed);
    }
  }

  lemma FullSlicesAreOwn(start: Evidence, levels: seq<nat>, n: nat, ev: Evidence, handed: seq<Slice>)
    requires n <= |levels| && Sliced(start, levels, n, ev, handed)
    ensures OwnSlices(handed, levels) && |handed| == n
  {
    forall j | 0 <= j < n
      ensures OwnSlice(handed[j], levels[j])
    {
      assert FullSlice(handed[j], levels[j]);
    }
  }

  lemma OneMoreSlice(done: seq<Slice>, levels: seq<nat>, slice: Slice, handed: seq<Slice>)
    requires OwnSlices(done, levels) && |done| < |levels| && OwnSlice(slice, levels[|done|])
    requires done <= handed && (|handed| > |done| ==> handed == done + [slice])
    ensures OwnSlices(handed, levels)
  {
  }

  lemma ExtensionIsOwn(before: Evidence, now: Evidence, c: nat)
    requires Extends(before, now, c)
    ensures OwnSlice(SliceOf(before, now, c), c)
  {
  }

  lemma SlicesAtEnd(q: Ramp, start: Evidence)
    requires EndInv(q, start)
    ensures q.stage == Left(false, None) ==>
              && |q.handed| == q.next
              && q.sh.ev.records == start.records + AllRecords(q.handed)
              && q.sh.ev.sessions == start.sessions + AllSessions(q.handed)
    ensures RecordsAmong(start, q.levels, q.next, q.sh.ev.records)
    ensures |start.records| <= |q.sh.ev.records| && q.sh.ev.records[..|start.records|] == start.records
  {
    if LastLevelCut(q, start) {
      var done := q.handed[..q.next - 1];
      var slice := SliceOf(q.before, q.sh.ev, q.levels[q.next - 1]);
      RecordsStayAmong(start, q.levels, q.next - 1, q.before, q.sh.ev);
      SlicesJoin(start, q.before, q.sh.ev, q.levels[q.next - 1], done);
      assert (done + [slice])[..|done|] == done;
    }
  }

  lemma SlicesJoin(start: Evidence, before: Evidence, now: Evidence, c: nat, done: seq<Slice>)
    requires Extends(before, now, c)
    requires before.records == start.records + AllRecords(done)
    requires before.sessions == start.sessions + AllSessions(done)
    ensures var all := done + [SliceOf(before, now, c)];
            now.records == start.records + AllRecords(all) && now.sessions == start.sessions + AllSessions(all)
    ensures |start.records| <= |now.records| && now.records[..|start.records|] == start.records
  {
    var slice := SliceOf(before, now, c);
    assert (done + [slice])[..|done|] == done;
    assert now.records == before.records + slice.records && now.sessions == before.sessions + slice.sessions;
    assert start.records + (AllRecords(done) + slice.records) == start.records + AllRecords(done) + slice.records;
    assert start.sessions + (AllSessions(done) + slice.sessions) == start.sessions + AllSessions(done) + slice.sessions;
  }

  /**
   * Retry amplification after any ramp run, in any interleaving: every level of the ramp that has
   * records has a first attempt, and its amplification lies between 1 and the attempts allowed.
   */
  lemma AmplificationIsBounded(spec: SessionSpec, levels: seq<nat>, sh: Shared, es: seq<RampEvent>, q: Ramp, j: nat)
    requires EndsAs(spec, levels, sh, es, q)
    requires j < |levels| && levels[j] in Levels(q.sh.ev.records)
    ensures var row := RowOf(q.sh.ev.records, q.sh.ev.sessions, levels[j]);
            && row.firstAttempts >= 1
            && 1.0 <= row.amplification <= spec.maxAttempts as real
            && row.requests == row.firstAttempts + row.retries
  {
    EndHolds(spec, levels, sh, es, q);
    AmplificationAtEnd(q, sh.ev.(status := Running), j);
  }

  lemma AmplificationAtEnd(q: Ramp, start: Evidence, j: nat)
    requires EndInv(q, start) && FreshFor(start, q.levels) && Ascending(q.levels)
    requires j < |q.levels| && q.levels[j] in Levels(q.sh.ev.records)
    ensures var row := RowOf(q.sh.ev.records, q.sh.ev.sessions, q.levels[j]);
            && row.firstAttempts >= 1
            && 1.0 <= row.amplification <= q.spec.maxAttempts as real
            && row.requests == row.firstAttempts + row.retries
  {
    SlicesAtEnd(q, start);
    EnteredIfRecorded(start, q.levels, q.next, q.sh.ev, j);
    PaidAtEnd(q, start, j);
    PaidMeansBounded(q.sh.ev.records, q.sh.ev.sessions, q.levels[j], q.spec.maxAttempts);
  }

  lemma EnteredIfRecorded(start: Evidence, levels: seq<nat>, n: nat, ev: Evidence, j: nat)
    requires Ascending(levels) && FreshFor(start, levels) && RecordsAmong(start, levels, n, ev.records)
    requires |start.records| <= |ev.records| && ev.records[..|start.records|] == start.records
    requires j < |levels| && levels[j] in Levels(ev.records)
    ensures j < n
  {
    LevelsAreSorted(ev.records);
    var i :| 0 <= i < |ev.records| && ev.records[i].concurrency == levels[j];
    assert forall k :: 0 <= k < |start.records| ==> start.records[k] == ev.records[k];
    assert Among(levels, n, levels[j]);
  }

  lemma PaidAtEnd(q: Ramp, start: Evidence, j: nat)
    requires EndInv(q, start) && Ascending(q.levels) && j < q.next && q.next <= |q.levels|
    ensures Paid(q.sh.ev.records, q.levels[j], q.spec.maxAttempts)
  {
    if LastLevelCut(q, start) && j < q.next - 1 {
      PaidKept(q.before, q.sh.ev, q.levels[q.next - 1], q.levels[j], q.spec.maxAttempts);
    }
  }
}
