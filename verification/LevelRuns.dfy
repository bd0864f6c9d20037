/** kneepoint/generator/pool.py: the worker loops and the outcome of a level, read off the events of its run alone. */
module LevelRuns {
  import opened Basics
  import opened Records
  import opened Budget
  import opened Lifecycle
  import opened Session
  import opened Pool

  /** The event is a move of worker `w` itself. */
  predicate IsOwn(e: LevelEvent, w: nat) {
    match e
    case StartSession(i, _, _) => i == w
    case Act(i, _, _) => i == w
    case Report(i, _, _) => i == w
    case LeaveLoop(i) => i == w
    case CancelIdle(i) => i == w
    case _ => false
  }

  /** What worker `w` did last. */
  function LastOwn(es: seq<LevelEvent>, w: nat): (last: Option<LevelEvent>) {
    if es == [] then None
    else if IsOwn(es[|es| - 1], w) then Some(es[|es| - 1])
    else LastOwn(es[..|es| - 1], w)
  }

  /** The session worker `w` started last: its id and its turns. */
  function LastStarted(es: seq<LevelEvent>, w: nat): (started: Option<(string, nat)>) {
    if es == [] then None
    else if es[|es| - 1].StartSession? && es[|es| - 1].worker == w then Some((es[|es| - 1].id, es[|es| - 1].nTurns))
    else LastStarted(es[..|es| - 1], w)
  }

  /** What happened in that session. */
  function OwnActs(es: seq<LevelEvent>, w: nat): (events: seq<Event>) {
    if es == [] then []
    else
      match es[|es| - 1]
      case StartSession(i, _, _) => if i == w then [] else OwnActs(es[..|es| - 1], w)
      case Act(i, event, _) => OwnActs(es[..|es| - 1], w) + if i == w then [event] else []
      case _ => OwnActs(es[..|es| - 1], w)
  }

  ghost predicate InSession(spec: SessionSpec, c: nat, es: seq<LevelEvent>, w: nat) {
    && LastStarted(es, w).Some?
    && var (id, nTurns) := LastStarted(es, w).value;
       1 <= nTurns && LegalRun(spec, Fresh(id, c, nTurns), OwnActs(es, w))
  }

  function SessionOf(spec: SessionSpec, c: nat, es: seq<LevelEvent>, w: nat): (s: Sess)
    requires LastStarted(es, w).Some?
  {
    Run(spec, Fresh(LastStarted(es, w).value.0, c, LastStarted(es, w).value.1), OwnActs(es, w))
  }

  /**
   * Worker `w` stands where its own last event leaves it: at the top of its loop at first and after each
   * session that ends before the deadline, in its session meanwhile, returned at the deadline or on the stop.
   */
  ghost predicate StandsWhere(l: Level, es: seq<LevelEvent>, w: nat)
    requires w < |l.workers|
  {
    var place := l.workers[w].place;
    match LastOwn(es, w)
    case None => place == Idle
    case Some(Report(_, None, deadlinePassed)) => place == if deadlinePassed then Returned else Idle
    case Some(Report(_, Some(error), _)) => place == Dead(error)
    case Some(LeaveLoop(_)) => place == Returned
    case Some(CancelIdle(_)) => place == Dead(CancelledError)
    case Some(_) =>
      && InSession(l.spec, l.concurrency, es, w)
      && var s := SessionOf(l.spec, l.concurrency, es, w);
         match s.phase
         case Closed(None) => place == After(s.records)
         case Closed(Some(error)) => place == Dead(error)
         case _ => place == Busy(s)
  }

  /** A nonempty run, seen from its last event. */
  lemma {:induction false} LastStep(l: Level, es: seq<LevelEvent>, m: Level) returns (k: Level)
    requires IsRun(l, es, m) && es != []
    ensures IsRun(l, es[..|es| - 1], k) && Allowed(k, es[|es| - 1]) && m == Apply(k, es[|es| - 1])
    decreases |es|
  {
    if |es| == 1 {
      k := l;
    } else {
      k := LastStep(Apply(l, es[0]), es[1..], m);
      assert es[1..][..|es| - 2] == es[..|es| - 1][1..];
    }
  }

  lemma OthersHistory(es: seq<LevelEvent>, e: LevelEvent, w: nat)
    requires !IsOwn(e, w)
    ensures LastOwn(es + [e], w) == LastOwn(es, w) && LastStarted(es + [e], w) == LastStarted(es, w)
    ensures OwnActs(es + [e], w) == OwnActs(es, w)
  {
    assert (es + [e])[..|es|] == es;
  }

  lemma OthersPlace(l: Level, e: LevelEvent, w: nat)
    requires Allowed(l, e) && w < |l.workers| && !IsOwn(e, w)
    ensures w < |Apply(l, e).workers| && Apply(l, e).workers[w] == l.workers[w]
    ensures Apply(l, e).spec == l.spec && Apply(l, e).concurrency == l.concurrency
  {
  }

  lemma OthersStay(l: Level, es: seq<LevelEvent>, e: LevelEvent, w: nat)
    requires Allowed(l, e) && w < |l.workers| && StandsWhere(l, es, w) && !IsOwn(e, w)
    ensures w < |Apply(l, e).workers| && StandsWhere(Apply(l, e), es + [e], w)
  {
    OthersHistory(es, e, w);
    OthersPlace(l, e, w);
  }

  lemma ActStands(l: Level, es: seq<LevelEvent>, e: LevelEvent, w: nat)
    requires Allowed(l, e) && w < |l.workers| && StandsWhere(l, es, w) && e.Act? && IsOwn(e, w)
    ensures w < |Apply(l, e).workers| && StandsWhere(Apply(l, e), es + [e], w)
  {
    assert (es + [e])[..|es|] == es;
    var acts := OwnActs(es, w);
    assert OwnActs(es + [e], w) == acts + [e.event] && (acts + [e.event])[..|acts|] == acts;
  }

  lemma OwnStands(l: Level, es: seq<LevelEvent>, e: LevelEvent, w: nat)
    requires Allowed(l, e) && w < |l.workers| && StandsWhere(l, es, w) && IsOwn(e, w)
    ensures w < |Apply(l, e).workers| && StandsWhere(Apply(l, e), es + [e], w)
  {
    assert (es + [e])[..|es|] == es;
    if e.Act? {
      ActStands(l, es, e, w);
    }
  }

  /** In every reachable state of a level every worker stands where its own events leave it. */
  lemma {:induction false} WorkersRunSessions(sh: Shared, c: nat, spec: SessionSpec, es: seq<LevelEvent>, m: Level,
                                              w: nat)
    requires IsRun(Begin(sh, c, spec), es, m) && w < |m.workers|
    ensures StandsWhere(m, es, w)
    decreases |es|
  {
    if es != [] {
      var before, e := es[..|es| - 1], es[|es| - 1];
      var k := LastStep(Begin(sh, c, spec), es, m);
      assert es == before + [e];
      WorkersRunSessions(sh, c, spec, before, k, w);
      if IsOwn(e, w) {
        OwnStands(k, before, e, w);
      } else {
        OthersStay(k, before, e, w);
      }
    }
  }

  // ----- how a level ends

  /** The exception worker `w` died of, if it did: from its session, from `on_record`, or cancelled in its loop. */
  function DiedOf(spec: SessionSpec, c: nat, es: seq<LevelEvent>, w: nat): (error: Option<Raised>) {
    match LastOwn(es, w)
    case Some(Report(_, error, _)) => error
    case Some(CancelIdle(_)) => Some(CancelledError)
    case Some(LeaveLoop(_)) => None
    case None => None
    case Some(_) =>
      if LastStarted(es, w).Some? && SessionOf(spec, c, es, w).phase.Closed? then SessionOf(spec, c, es, w).phase.raised
      else None
  }

  /** What made the level cancel its workers: its own cancellation or the first failure it noticed. */
  function FirstFailure(spec: SessionSpec, c: nat, es: seq<LevelEvent>): (error: Option<Raised>) {
    if es == [] then None
    else
      var before := es[..|es| - 1];
      if FirstFailure(spec, c, before).Some? then FirstFailure(spec, c, before)
      else
        match es[|es| - 1]
        case CancelLevel => Some(CancelledError)
        case ChildFailed(w) => DiedOf(spec, c, before, w)
        case _ => None
  }

  predicate IsReturned(es: seq<LevelEvent>, w: nat) {
    match LastOwn(es, w)
    case Some(Report(_, None, true)) => true
    case Some(LeaveLoop(_)) => true
    case _ => false
  }

  /** The level's own status in the evidence, beside that of the run. */
  predicate Marked(ev: Evidence, c: nat, status: RunStatus) {
    ev.status == status && c in ev.levelStatus && ev.levelStatus[c] == status
  }

  ghost predicate MainFollows(m: Level, es: seq<LevelEvent>) {
    var failure := FirstFailure(m.spec, m.concurrency, es);
    if es != [] && es[|es| - 1].Join? then
      var exit := es[|es| - 1].exitRaises;
      var raised := if exit.Some? then exit else failure;
      var status := match raised
        case Some(CancelledError) => Cancelled
        case Some(_) => Failed
        case None => if m.sh.acct.stopped then Stopped else Completed;
      && m.main == Ended(status, raised) && Marked(m.sh.ev, m.concurrency, status)
      && (forall w: nat :: w < |m.workers| ==>
            IsReturned(es, w) || (failure.Some? && DiedOf(m.spec, m.concurrency, es, w).Some?))
    else
      m.main == (if failure.Some? then Draining(failure.value) else Gathering)
      && Marked(m.sh.ev, m.concurrency, Running)
  }

  lemma PlaceTells(l: Level, es: seq<LevelEvent>, w: nat)
    requires w < |l.workers| && StandsWhere(l, es, w)
    ensures l.workers[w].place.Returned? <==> IsReturned(es, w)
    ensures DiedOf(l.spec, l.concurrency, es, w)
            == if l.workers[w].place.Dead? then Some(l.workers[w].place.error) else None
  {
  }

  lemma TouchLeavesStatus(spec: SessionSpec, s: Sess, e: Event, spendSeen: bool, sh: Shared)
    ensures var ev := Touch(spec, s, e, spendSeen, sh).ev;
            ev.status == sh.ev.status && ev.levelStatus == sh.ev.levelStatus
  {
  }

  lemma WorkLeavesMain(l: Level, e: LevelEvent)
    requires Allowed(l, e) && !e.Join? && !e.ChildFailed? && !e.CancelLevel?
    ensures Apply(l, e).main == l.main
    ensures Apply(l, e).sh.ev.status == l.sh.ev.status && Apply(l, e).sh.ev.levelStatus == l.sh.ev.levelStatus
    ensures Apply(l, e).spec == l.spec && Apply(l, e).concurrency == l.concurrency
  {
    if e.Act? {
      TouchLeavesStatus(l.spec, l.workers[e.worker].place.sess, e.event, e.spendSeen, l.sh);
    }
  }

  lemma JoinFollows(l: Level, es: seq<LevelEvent>, e: LevelEvent)
    requires Allowed(l, e) && e.Join? && MainFollows(l, es)
    requires forall w: nat :: w < |l.workers| ==> StandsWhere(l, es, w)
    ensures MainFollows(Apply(l, e), es + [e])
  {
    assert (es + [e])[..|es|] == es;
    forall w: nat | w < |l.workers|
      ensures IsReturned(es + [e], w) || (l.main.Draining? && DiedOf(l.spec, l.concurrency, es + [e], w).Some?)
    {
      PlaceTells(l, es, w);
      OthersHistory(es, e, w);
    }
  }

  lemma StepFollows(l: Level, es: seq<LevelEvent>, e: LevelEvent)
    requires Allowed(l, e) && !l.main.Ended? && MainFollows(l, es)
    requires forall w: nat :: w < |l.workers| ==> StandsWhere(l, es, w)
    ensures MainFollows(Apply(l, e), es + [e])
  {
    assert (es + [e])[..|es|] == es;
    if e.Join? {
      JoinFollows(l, es, e);
    } else if e.ChildFailed? {
      PlaceTells(l, es, e.worker);
    } else if !e.CancelLevel? {
      WorkLeavesMain(l, e);
    }
  }

  lemma {:induction false} RunFollows(sh: Shared, c: nat, spec: SessionSpec, es: seq<LevelEvent>, m: Level)
    requires IsRun(Begin(sh, c, spec), es, m) && !sh.acct.stopped
    ensures MainFollows(m, es) && m.spec == spec && m.concurrency == c && |m.workers| == c
    decreases |es|
  {
    if es != [] {
      var before, e := es[..|es| - 1], es[|es| - 1];
      var k := LastStep(Begin(sh, c, spec), es, m);
      assert es == before + [e];
      RunFollows(sh, c, spec, before, k);
      forall w: nat | w < |k.workers|
        ensures StandsWhere(k, before, w)
      {
        WorkersRunSessions(sh, c, spec, before, k, w);
      }
      StepFollows(k, before, e);
    }
  }

  /**
   * How a level ends. It is over exactly when its workers were joined. It raises what its client's exit
   * raised, else its first failure or cancellation; its status follows, stopped only under the stop.
   */
  lemma OutcomeOfLevel(sh: Shared, c: nat, spec: SessionSpec, es: seq<LevelEvent>, m: Level)
    requires IsRun(Begin(sh, c, spec), es, m) && !sh.acct.stopped
    ensures m.main.Ended? <==> es != [] && es[|es| - 1].Join?
    ensures m.main.Ended? ==>
              var exit := es[|es| - 1].exitRaises;
              && m.main.raised == (if exit.Some? then exit else FirstFailure(spec, c, es))
              && m.main.status == match m.main.raised
                                  case Some(CancelledError) => Cancelled
                                  case Some(_) => Failed
                                  case None => if m.sh.acct.stopped then Stopped else Completed
    ensures Marked(m.sh.ev, c, if m.main.Ended? then m.main.status else Running)
  {
    RunFollows(sh, c, spec, es, m);
  }

  /** A level begun under the stop does nothing but say so. */
  lemma StoppedBeforeItBegan(sh: Shared, c: nat, spec: SessionSpec, es: seq<LevelEvent>, m: Level)
    requires IsRun(Begin(sh, c, spec), es, m) && sh.acct.stopped
    ensures es == [] && m.main == Ended(Stopped, None) && m.workers == []
    ensures m.sh == sh.(ev := sh.ev.(status := Stopped, levelStatus := sh.ev.levelStatus[c := Stopped]))
  {
  }

  /** No exception of a worker is swallowed: the level that joined it raises too. */
  lemma NothingIsSwallowed(sh: Shared, c: nat, spec: SessionSpec, es: seq<LevelEvent>, m: Level, w: nat)
    requires IsRun(Begin(sh, c, spec), es, m) && !sh.acct.stopped && w < c
    requires m.main.Ended? && DiedOf(spec, c, es, w).Some?
    ensures m.main.raised.Some?
  {
    RunFollows(sh, c, spec, es, m);
  }

  // ----- the hold time

  lemma StepKeepsStop(l: Level, e: LevelEvent)
    requires Allowed(l, e) && l.sh.acct.stopped
    ensures Apply(l, e).sh.acct.stopped
  {
    if e.Act? {
      TouchAccount(l.spec, l.workers[e.worker].place.sess, e.event, e.spendSeen, l.sh);
      if e.event.Receive? {
        ObserveKeepsBelowCap(l.sh.acct, e.event.record);
      }
    }
  }

  /** A worker leaves its loop early only under the stop, and the stop stays. */
  lemma {:induction false} LeavingNeedsStop(sh: Shared, c: nat, spec: SessionSpec, es: seq<LevelEvent>, m: Level,
                                            w: nat)
    requires IsRun(Begin(sh, c, spec), es, m) && LastOwn(es, w) == Some(LeaveLoop(w))
    ensures m.sh.acct.stopped
    decreases |es|
  {
    var k := LastStep(Begin(sh, c, spec), es, m);
    if IsOwn(es[|es| - 1], w) {
      StepKeepsStop(k, es[|es| - 1]);
    } else {
      LeavingNeedsStop(sh, c, spec, es[..|es| - 1], k, w);
      StepKeepsStop(k, es[|es| - 1]);
    }
  }

  lemma {:induction false} LastOwnIsOwn(es: seq<LevelEvent>, w: nat)
    ensures LastOwn(es, w).Some? ==> IsOwn(LastOwn(es, w).value, w)
  {
    if es != [] {
      LastOwnIsOwn(es[..|es| - 1], w);
    }
  }

  /** The load is held: when a level completes, each worker's last act was a session that ended past the deadline. */
  lemma CompletedHeldToTheDeadline(sh: Shared, c: nat, spec: SessionSpec, es: seq<LevelEvent>, m: Level, w: nat)
    requires IsRun(Begin(sh, c, spec), es, m) && m.main == Ended(Completed, None) && w < c
    ensures LastOwn(es, w) == Some(Report(w, None, true))
  {
    RunFollows(sh, c, spec, es, m);
    LastOwnIsOwn(es, w);
    assert IsReturned(es, w);
    if LastOwn(es, w) == Some(LeaveLoop(w)) {
      LeavingNeedsStop(sh, c, spec, es, m, w);
    }
  }

  lemma {:induction false} RunSnoc(l: Level, es: seq<LevelEvent>, m: Level, e: LevelEvent)
    requires IsRun(l, es, m) && Allowed(m, e)
    ensures IsRun(l, es + [e], Apply(m, e))
    decreases |es|
  {
    if es != [] {
      RunSnoc(Apply(l, es[0]), es[1..], m, e);
      assert (es + [e])[1..] == es[1..] + [e];
    }
  }

  /** Before the deadline, unstopped and with nothing failed, a worker whose session ended can start another. */
  lemma GoesOnUntilDeadline(sh: Shared, c: nat, spec: SessionSpec, es: seq<LevelEvent>, m: Level, w: nat,
                            id: string, nTurns: nat)
    returns (n: Level)
    requires IsRun(Begin(sh, c, spec), es, m) && w < c && !m.sh.acct.stopped && !m.main.Ended?
    requires FirstFailure(spec, c, es).None? && LastOwn(es, w) in {None, Some(Report(w, None, false))}
    requires id !in m.sh.used && 1 <= nTurns
    ensures IsRun(Begin(sh, c, spec), es + [StartSession(w, id, nTurns)], n)
  {
    if sh.acct.stopped {
      StoppedBeforeItBegan(sh, c, spec, es, m);
    }
    RunFollows(sh, c, spec, es, m);
    WorkersRunSessions(sh, c, spec, es, m, w);
    n := Apply(m, StartSession(w, id, nTurns));
    RunSnoc(Begin(sh, c, spec), es, m, StartSession(w, id, nTurns));
  }

  lemma {:induction false} LastOwnAt(es: seq<LevelEvent>, w: nat, k: nat)
    requires k < |es| && IsOwn(es[k], w) && forall j :: k < j < |es| ==> !IsOwn(es[j], w)
    ensures LastOwn(es, w) == Some(es[k])
  {
    if k < |es| - 1 {
      LastOwnAt(es[..|es| - 1], w, k);
    }
  }

  /** Past the deadline a worker starts nothing more. */
  lemma {:induction false} DeadlineEndsTheWorker(sh: Shared, c: nat, spec: SessionSpec, es: seq<LevelEvent>, m: Level,
                                                 w: nat, k: nat)
    requires IsRun(Begin(sh, c, spec), es, m) && k < |es| && es[k] == Report(w, None, true) && w < |m.workers|
    ensures forall j :: k < j < |es| ==> !IsOwn(es[j], w)
    decreases |es|
  {
    if k < |es| - 1 {
      var before := es[..|es| - 1];
      var l := LastStep(Begin(sh, c, spec), es, m);
      DeadlineEndsTheWorker(sh, c, spec, before, l, w, k);
      LastOwnAt(before, w, k);
      WorkersRunSessions(sh, c, spec, before, l, w);
    }
  }

  // ----- what can come next

  predicate AtLoopTop(es: seq<LevelEvent>, w: nat) {
    LastOwn(es, w) in {None, Some(Report(w, None, false))}
  }

  ghost predicate SessionOpen(spec: SessionSpec, c: nat, es: seq<LevelEvent>, w: nat) {
    && LastOwn(es, w).Some? && (LastOwn(es, w).value.StartSession? || LastOwn(es, w).value.Act?)
    && LastStarted(es, w).Some? && !SessionOf(spec, c, es, w).phase.Closed?
  }

  ghost predicate SessionReturned(spec: SessionSpec, c: nat, es: seq<LevelEvent>, w: nat) {
    && LastOwn(es, w).Some? && (LastOwn(es, w).value.StartSession? || LastOwn(es, w).value.Act?)
    && LastStarted(es, w).Some? && SessionOf(spec, c, es, w).phase == Closed(None)
  }

  /** The session event agrees with the stop flag, the pending cancellation and the spend controller. */
  predicate Agrees(sh: Shared, cancelling: bool, phase: Phase, e: Event, spendSeen: bool) {
    && (cancelling && phase in {InFlight, RetryWait, ThinkWait} ==> e == Abort(CancelledError))
    && (e.OpenTurn? ==> e.stopSeen == sh.acct.stopped)
    && (e.BeginAttempt? ==> e.stopBefore == sh.acct.stopped)
    && (e.Receive? && e.observerRaises.None? ==> spendSeen)
    && (e.Receive? && spendSeen && Observe(sh.acct, e.record).1.Rejected? ==> e.observerRaises.Some?)
  }

  lemma PlaceTellsMore(l: Level, es: seq<LevelEvent>, w: nat)
    requires w < |l.workers| && StandsWhere(l, es, w)
    ensures l.workers[w].place.Idle? <==> AtLoopTop(es, w)
    ensures l.workers[w].place.After? <==> SessionReturned(l.spec, l.concurrency, es, w)
    ensures l.workers[w].place.Busy? <==> SessionOpen(l.spec, l.concurrency, es, w)
    ensures l.workers[w].place.Busy? ==> l.workers[w].place.sess == SessionOf(l.spec, l.concurrency, es, w)
  {
    LastOwnIsOwn(es, w);
  }

  predicate AllJoined(spec: SessionSpec, c: nat, es: seq<LevelEvent>) {
    forall w: nat :: w < c ==>
      IsReturned(es, w) || (FirstFailure(spec, c, es).Some? && DiedOf(spec, c, es, w).Some?)
  }

  /** The events a worker, its session, the level and its caller wait for, after the events so far. */
  ghost predicate MayCome(spec: SessionSpec, c: nat, es: seq<LevelEvent>, sh: Shared, e: LevelEvent) {
    var failed := FirstFailure(spec, c, es).Some?;
    match e
    case SetStop => !sh.acct.stopped
    case StartSession(w, id, nTurns) =>
      w < c && AtLoopTop(es, w) && !failed && !sh.acct.stopped && id !in sh.used && 1 <= nTurns
    case Act(w, event, spendSeen) =>
      && w < c && SessionOpen(spec, c, es, w)
      && Legal(spec, SessionOf(spec, c, es, w), event)
      && Agrees(sh, failed, SessionOf(spec, c, es, w).phase, event, spendSeen)
    case Report(w, _, _) => w < c && SessionReturned(spec, c, es, w)
    case LeaveLoop(w) => w < c && AtLoopTop(es, w) && sh.acct.stopped
    case CancelIdle(w) => w < c && AtLoopTop(es, w) && failed
    case ChildFailed(w) => w < c && DiedOf(spec, c, es, w).Some? && !failed
    case CancelLevel => !failed
    case Join(_) => AllJoined(spec, c, es)
  }

  /** The events a level can go on with are exactly those its loops and its `gather` wait for. */
  lemma WhatCanComeNext(sh: Shared, c: nat, spec: SessionSpec, es: seq<LevelEvent>, m: Level, e: LevelEvent)
    requires IsRun(Begin(sh, c, spec), es, m) && !sh.acct.stopped && !m.main.Ended?
    ensures Allowed(m, e) <==> MayCome(spec, c, es, m.sh, e)
  {
    RunFollows(sh, c, spec, es, m);
    forall w: nat | w < c
      ensures StandsWhere(m, es, w)
    {
      WorkersRunSessions(sh, c, spec, es, m, w);
    }
    if e.Join? {
      forall w: nat | w < c
        ensures m.workers[w].place.Returned? <==> IsReturned(es, w)
        ensures m.workers[w].place.Dead? <==> DiedOf(spec, c, es, w).Some?
      {
        PlaceTells(m, es, w);
      }
    } else if !e.SetStop? && !e.CancelLevel? && e.worker < c {
      PlaceTells(m, es, e.worker);
      PlaceTellsMore(m, es, e.worker);
    }
  }
}
