/** What a stopped or failing level still does: no new requests, and a bounded number of further steps. */
module Drain {
  import opened Basics
  import opened Records
  import opened Budget
  import opened Lifecycle
  import opened Session
  import opened Pool
  import opened Spend

  function Dispatched(ev: Evidence): (keys: set<AttemptKey>) {
    set k | k in ev.attempts && ev.attempts[k].dispatched
  }

  // ----- after the stop flag is up

  /** Steps a worker can still take once the stop flag is up. */
  function StoppedRank(): (f: Worker -> int) {
    (w: Worker) =>
      match w.place
      case Idle => 1
      case After(_) => 2
      case Returned => 0
      case Dead(_) => 0
      case Busy(s) =>
        match s.phase
        case TurnTop => 3
        case ThinkWait => 4
        case TurnEnd => 5
        case AttemptTop => 6
        case RetryWait => 7
        case InFlight => 8
        case Closed(_) => 3
  }

  function MainRank(main: Main): (n: nat) {
    match main
    case Gathering => 2
    case Draining(_) => 1
    case Ended(_, _) => 0
  }

  function StoppedMeasure(l: Level): (n: int) {
    SumInt(l.workers, StoppedRank()) + MainRank(l.main)
  }

  lemma StoppedActLowersRank(l: Level, i: nat, e: Event, spendSeen: bool)
    requires Allowed(l, Act(i, e, spendSeen)) && l.sh.acct.stopped
    ensures StoppedRank()(ActOn(l, i, e, spendSeen).workers[i]) < StoppedRank()(l.workers[i])
  {
  }

  lemma StoppedStepLowersMeasure(l: Level, e: LevelEvent)
    requires Allowed(l, e) && l.sh.acct.stopped
    ensures StoppedMeasure(Apply(l, e)) < StoppedMeasure(l)
  {
    match e
    case Act(i, event, spendSeen) =>
      StoppedActLowersRank(l, i, event, spendSeen);
      SumIntUpdate(l.workers, i, Apply(l, e).workers[i], StoppedRank());
    case Report(i, _, _) => SumIntUpdate(l.workers, i, Apply(l, e).workers[i], StoppedRank());
    case LeaveLoop(i) => SumIntUpdate(l.workers, i, Apply(l, e).workers[i], StoppedRank());
    case CancelIdle(i) => SumIntUpdate(l.workers, i, Apply(l, e).workers[i], StoppedRank());
    case _ =>
  }

  lemma StoppedMeasureRange(l: Level)
    ensures 0 <= StoppedMeasure(l) <= 8 * |l.workers| + 2
  {
    RankRange(l.workers);
  }

  lemma {:induction false} RankRange(ws: seq<Worker>)
    ensures 0 <= SumInt(ws, StoppedRank()) <= 8 * |ws|
  {
    if ws != [] {
      RankRange(ws[..|ws| - 1]);
      assert 0 <= StoppedRank()(ws[|ws| - 1]) <= 8;
    }
  }

  /** One step with the stop flag up: nothing becomes dispatched, and completions come from requests in flight. */
  lemma StoppedActDispatchesNothing(l: Level, i: nat, e: Event, spendSeen: bool)
    requires Allowed(l, Act(i, e, spendSeen)) && l.sh.acct.stopped
    ensures Dispatched(ActOn(l, i, e, spendSeen).sh.ev) == Dispatched(l.sh.ev)
    ensures ActOn(l, i, e, spendSeen).sh.acct.stopped
  {
    var s, sh := l.workers[i].place.sess, ActOn(l, i, e, spendSeen).sh;
    TouchAccount(l.spec, s, e, spendSeen, l.sh);
    assert e.BeginAttempt? ==> e.stopBefore;
    forall k
      ensures k in Dispatched(sh.ev) <==> k in Dispatched(l.sh.ev)
    {
      StoppedTouchKeepsFlags(l.spec, s, e, spendSeen, l.sh, k);
    }
  }

  lemma StoppedTouchKeepsFlags(spec: SessionSpec, s: Sess, e: Event, spendSeen: bool, sh: Shared, k: AttemptKey)
    requires e.BeginAttempt? ==> e.stopBefore
    ensures var before, after := sh.ev.attempts, Touch(spec, s, e, spendSeen, sh).ev.attempts;
            (k in after <==> k in before) && (k in before ==> after[k].dispatched == before[k].dispatched)
  {
  }

  lemma StoppedStep(l: Level, e: LevelEvent)
    requires Allowed(l, e) && l.sh.acct.stopped
    ensures var m := Apply(l, e);
            && m.sh.acct.stopped
            && Dispatched(m.sh.ev) == Dispatched(l.sh.ev)
            && ActiveRequests(m) <= ActiveRequests(l)
            && |m.sh.ev.records| + ActiveRequests(m) <= |l.sh.ev.records| + ActiveRequests(l)
  {
    match e
    case Act(i, event, spendSeen) =>
      StoppedActDispatchesNothing(l, i, event, spendSeen);
      TouchRecords(l.spec, l.workers[i].place.sess, event, spendSeen, l.sh);
      ActiveAfterAct(l, i, event, spendSeen);
      if Step(l.spec, l.workers[i].place.sess, event).phase.InFlight? {
        DispatchNeedsNoStop(l, i, event, spendSeen);
      }
    case Report(i, _, _) => CountUpdate(l.workers, i, Apply(l, e).workers[i], HasActiveRequest());
    case LeaveLoop(i) => CountUpdate(l.workers, i, Apply(l, e).workers[i], HasActiveRequest());
    case CancelIdle(i) => CountUpdate(l.workers, i, Apply(l, e).workers[i], HasActiveRequest());
    case _ =>
  }

  /**
   * From any state with the stop flag up: no attempt becomes dispatched, at most the requests already
   * in flight still complete, and the run is over within the measure, which is at most 8 N + 2.
   */
  lemma {:induction false} StopDrains(l: Level, es: seq<LevelEvent>, m: Level)
    requires l.sh.acct.stopped && IsRun(l, es, m)
    ensures Dispatched(m.sh.ev) == Dispatched(l.sh.ev)
    ensures |m.sh.ev.records| + ActiveRequests(m) <= |l.sh.ev.records| + ActiveRequests(l)
    ensures ActiveRequests(l) <= |l.workers|
    ensures |es| + StoppedMeasure(m) <= StoppedMeasure(l) <= 8 * |l.workers| + 2
    decreases |es|
  {
    StoppedMeasureRange(l);
    if es != [] {
      StoppedStep(l, es[0]);
      StoppedStepLowersMeasure(l, es[0]);
      StopDrains(Apply(l, es[0]), es[1..], m);
    }
  }

  /** When a completion is what sets the flag, at most N - 1 other requests are in flight. */
  lemma CompletionThatStops(l: Level, i: nat, e: Event, spendSeen: bool)
    requires LevelInv(l) && Allowed(l, Act(i, e, spendSeen)) && e.Receive?
    requires !l.sh.acct.stopped && ActOn(l, i, e, spendSeen).sh.acct.stopped
    ensures ActiveRequests(ActOn(l, i, e, spendSeen)) <= l.concurrency - 1
  {
    ActiveAfterAct(l, i, e, spendSeen);
  }

  // ----- no worker is ever stuck

  /** An event for worker `i` that needs no cancellation: the request returns, a wait ends, a loop goes on. */
  ghost function NextOf(l: Level, i: nat, freshId: string): (levelEvent: LevelEvent)
    requires i < |l.workers|
  {
    var stop := l.sh.acct.stopped;
    match l.workers[i].place
    case Idle =>
      if l.main.Draining? then CancelIdle(i)
      else if stop then LeaveLoop(i)
      else StartSession(i, freshId, 1)
    case After(_) => Report(i, None, true)
    case Busy(s) =>
      (match s.phase
       case TurnTop => Act(i, OpenTurn(stop, Some("")), true)
       case AttemptTop => Act(i, BeginAttempt(stop, None, stop), true)
       case InFlight =>
         if l.main.Draining? then Act(i, Abort(CancelledError), true)
         else
           var r := RequestRecord(s.id, s.concurrency, s.turn, s.attempt, true, Some(200), Some(0), Some(0), None,
                                  false, 0.0, None, 0.0, None, None, None, None);
           Act(i, Receive(r, "", if Observe(l.sh.acct, r).1.Rejected? then Some(OtherError) else None), true)
       case TurnEnd => Act(i, EndTurn(false), true)
       case _ => Act(i, if l.main.Draining? then Abort(CancelledError) else Wake, true))
    case Returned => Join(None)
    case Dead(_) => if l.main.Gathering? then ChildFailed(i) else Join(None)
  }

  lemma OpenSessionCanMove(l: Level, i: nat, freshId: string)
    requires LevelInv(l) && !l.main.Ended? && i < |l.workers| && l.workers[i].place.Busy?
    ensures Allowed(l, NextOf(l, i, freshId))
  {
    assert Attached(l.spec, l.concurrency, l.workers[i].place.sess, l.sh);
  }

  lemma UnfinishedWorkerCanMove(l: Level, i: nat, freshId: string)
    requires freshId !in l.sh.used
    requires LevelInv(l) && !l.main.Ended? && i < |l.workers|
    requires !l.workers[i].place.Returned?
    requires l.workers[i].place.Dead? ==> l.main.Gathering?
    ensures Allowed(l, NextOf(l, i, freshId))
  {
    if l.workers[i].place.Busy? {
      OpenSessionCanMove(l, i, freshId);
    }
  }

  /** A level that has not ended always has an event to continue with; together with `StopDrains`, it ends. */
  lemma NeverStuck(l: Level, freshId: string) returns (e: LevelEvent)
    requires freshId !in l.sh.used
    requires LevelInv(l) && !l.main.Ended?
    ensures Allowed(l, e) && !e.CancelLevel? && !e.SetStop?
    ensures e.Act? && e.event.Abort? ==> l.main.Draining?
  {
    if i: nat :| i < |l.workers| && !l.workers[i].place.Returned?
                 && (l.workers[i].place.Dead? ==> l.main.Gathering?) {
      UnfinishedWorkerCanMove(l, i, freshId);
      e := NextOf(l, i, freshId);
    } else {
      e := Join(None);
    }
  }

  // ----- after a failure or a cancellation

  /** Steps a worker can still take while the level is being cancelled. */
  function DrainRank(): (f: Worker -> int) {
    (w: Worker) =>
      match w.place
      case Idle => 2
      case After(_) => 3
      case Returned => 0
      case Dead(_) => 0
      case Busy(s) =>
        match s.phase
        case InFlight => 1
        case RetryWait => 1
        case ThinkWait => 1
        case TurnEnd => if s.accepted.None? then 5 else 10
        case AttemptTop => 8
        case TurnTop => 9
        case Closed(_) => 4
  }

  function DrainMeasure(l: Level): (n: int) {
    SumInt(l.workers, DrainRank()) + (if l.sh.acct.stopped then 0 else 1) + MainRank(l.main)
  }

  lemma DrainingActLowersRank(l: Level, i: nat, e: Event, spendSeen: bool)
    requires LevelInv(l) && Allowed(l, Act(i, e, spendSeen)) && l.main.Draining?
    ensures DrainRank()(ActOn(l, i, e, spendSeen).workers[i]) < DrainRank()(l.workers[i])
  {
    var s := l.workers[i].place.sess;
    assert Attached(l.spec, l.concurrency, s, l.sh);
    DrainingSessionLowersRank(l.spec, s, e, l.workers[i].sessions, ActOn(l, i, e, spendSeen).workers[i].sessions);
  }

  lemma DrainingSessionLowersRank(spec: SessionSpec, s: Sess, e: Event, before: nat, after: nat)
    requires Position(spec, s) && Legal(spec, s, e) && !s.phase.Closed?
    requires Awaiting(s) ==> e == Abort(CancelledError)
    ensures DrainRank()(Worker(after, PlaceOf(Step(spec, s, e)))) < DrainRank()(Worker(before, Busy(s)))
  {
  }

  lemma DrainingActLowersMeasure(l: Level, i: nat, e: Event, spendSeen: bool)
    requires LevelInv(l) && Allowed(l, Act(i, e, spendSeen)) && l.main.Draining?
    ensures DrainMeasure(ActOn(l, i, e, spendSeen)) < DrainMeasure(l)
    ensures ActOn(l, i, e, spendSeen).main == l.main
  {
    DrainingActLowersRank(l, i, e, spendSeen);
    SumIntUpdate(l.workers, i, ActOn(l, i, e, spendSeen).workers[i], DrainRank());
    TouchAccount(l.spec, l.workers[i].place.sess, e, spendSeen, l.sh);
    if e.Receive? {
      ObserveKeepsBelowCap(l.sh.acct, e.record);
    }
  }

  lemma DrainingMoveLowersMeasure(l: Level, e: LevelEvent)
    requires Allowed(l, e) && l.main.Draining? && !e.Act?
    ensures DrainMeasure(Apply(l, e)) < DrainMeasure(l)
    ensures !Apply(l, e).main.Gathering?
  {
    match e
    case Report(i, _, _) => SumIntUpdate(l.workers, i, Apply(l, e).workers[i], DrainRank());
    case LeaveLoop(i) => SumIntUpdate(l.workers, i, Apply(l, e).workers[i], DrainRank());
    case CancelIdle(i) => SumIntUpdate(l.workers, i, Apply(l, e).workers[i], DrainRank());
    case _ =>
  }

  lemma DrainingStepLowersMeasure(l: Level, e: LevelEvent)
    requires LevelInv(l) && Allowed(l, e) && l.main.Draining?
    ensures DrainMeasure(Apply(l, e)) < DrainMeasure(l)
    ensures !Apply(l, e).main.Gathering?
  {
    if e.Act? {
      DrainingActLowersMeasure(l, e.worker, e.event, e.spendSeen);
    } else {
      DrainingMoveLowersMeasure(l, e);
    }
  }

  lemma {:induction false} DrainRange(ws: seq<Worker>)
    ensures 0 <= SumInt(ws, DrainRank()) <= 10 * |ws|
  {
    if ws != [] {
      DrainRange(ws[..|ws| - 1]);
      assert 0 <= DrainRank()(ws[|ws| - 1]) <= 10;
    }
  }

  /**
   * Once one worker has failed or the level is cancelled, the others are joined within 10 N + 2 steps. The
   * level then reports that failure, unless the exit of its client raises: then it reports what that raised.
   */
  lemma {:induction false} FailureJoins(l: Level, es: seq<LevelEvent>, m: Level)
    requires LevelInv(l) && l.main.Draining? && IsRun(l, es, m)
    ensures |es| + DrainMeasure(m) <= DrainMeasure(l) <= 10 * |l.workers| + 2
    ensures m.main.Ended? ==>
              && es != [] && es[|es| - 1].Join?
              && var exit := es[|es| - 1].exitRaises;
                 var error := if exit.Some? then exit.value else l.main.error;
                 m.main == Ended(StatusOf(error), Some(error))
    decreases |es|
  {
    DrainRange(l.workers);
    if es != [] {
      DrainingStepLowersMeasure(l, es[0]);
      ApplyKeepsInv(l, es[0]);
      if Apply(l, es[0]).main.Ended? {
        DrainRange(Apply(l, es[0]).workers);
      } else {
        FailureJoins(Apply(l, es[0]), es[1..], m);
      }
    }
  }
}
