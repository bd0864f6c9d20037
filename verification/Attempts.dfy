/** kneepoint/generator/lifecycle.py: what becomes of the attempts a level registers. */
module Attempts {
  import opened Basics
  import opened Records
  import opened Budget
  import opened Lifecycle
  import opened Session
  import opened Pool
  import opened Ramp

  // Completed attempts are the recorded ones; an attempt that is still starting is in flight at some
  // worker; once the workers are joined none is left, whatever failed or was cancelled on the way.

  predicate IsStarting(ev: Evidence, k: AttemptKey) {
    k in ev.attempts && ev.attempts[k].status.Starting?
  }

  predicate IsCompleted(ev: Evidence, k: AttemptKey) {
    k in ev.attempts && ev.attempts[k].status == Finished(Completed)
  }

  /** A worker's session is waiting for this attempt. */
  predicate InFlightAt(w: Worker, k: AttemptKey) {
    w.place.Busy? && w.place.sess.active == Some(k)
  }

  predicate InFlight(ws: seq<Worker>, k: AttemptKey) {
    exists i :: 0 <= i < |ws| && InFlightAt(ws[i], k)
  }

  /** Attempts finished as completed are exactly those that left a record. */
  ghost predicate CompletedAreRecorded(ev: Evidence) {
    forall k :: IsCompleted(ev, k) <==> HasKey(ev.records, k)
  }

  ghost predicate StartingAreInFlight(ws: seq<Worker>, ev: Evidence) {
    forall k :: IsStarting(ev, k) ==> InFlight(ws, k)
  }

  /** Nothing is left open: no attempt is starting, the completed ones are the recorded ones. */
  ghost predicate Settled(ev: Evidence) {
    CompletedAreRecorded(ev) && forall k :: !IsStarting(ev, k)
  }

  /** What every state of a level keeps. */
  ghost predicate AttemptsInv(l: Level) {
    && CompletedAreRecorded(l.sh.ev)
    && StartingAreInFlight(l.workers, l.sh.ev)
    && (l.main.Ended? ==> forall i :: 0 <= i < |l.workers| ==> !l.workers[i].place.Busy?)
  }

  // ----- one step of one session

  /** An attempt that was not there before is starting, and then in flight, or finished as not completed. */
  lemma BegunEntry(ev: Evidence, k: AttemptKey, observerRaises: Option<Raised>, stopAfter: bool)
    requires k !in ev.attempts
    ensures var after := Begun(ev, k, observerRaises, stopAfter);
            !IsCompleted(after, k) && (IsStarting(after, k) <==> observerRaises.None? && !stopAfter)
  {
  }

  lemma FinishedEntry(ev: Evidence, k: AttemptKey, how: RunStatus)
    requires k in ev.attempts
    ensures var after := FinishAttempt(ev, k, how);
            !IsStarting(after, k) && (IsCompleted(after, k) <==> how == Completed)
  {
  }

  /** Publishing a session leaves the attempts and the records alone. */
  lemma TouchEntries(spec: SessionSpec, s: Sess, e: Event, spendSeen: bool, sh: Shared)
    ensures var key := s.CurrentKey();
            Touch(spec, s, e, spendSeen, sh).ev.attempts ==
              match e {
                case BeginAttempt(stopBefore, observerRaises, stopAfter) =>
                  if stopBefore then sh.ev.attempts else Begun(sh.ev, key, observerRaises, stopAfter).attempts
                case Receive(r, _, _) => FinishAttempt(AddRecord(sh.ev, r), key, Completed).attempts
                case Abort(error) =>
                  if s.active.Some? then FinishAttempt(sh.ev, s.active.value, StatusOf(error)).attempts
                  else sh.ev.attempts
                case _ => sh.ev.attempts
              }
  {
  }

  /** The entry of the attempt a session stands at, after its step. */
  lemma OwnEntry(spec: SessionSpec, concurrency: nat, s: Sess, e: Event, spendSeen: bool, sh: Shared)
    requires Attached(spec, concurrency, s, sh) && Legal(spec, s, e)
    ensures var k, ev := s.CurrentKey(), Touch(spec, s, e, spendSeen, sh).ev;
            && (IsCompleted(ev, k) <==> IsCompleted(sh.ev, k) || e.Receive?)
            && (IsStarting(ev, k) ==>
                  Step(spec, s, e).active == Some(k) || (IsStarting(sh.ev, k) && s.active.None?))
  {
    TouchEntries(spec, s, e, spendSeen, sh);
    match e
    case BeginAttempt(_, observerRaises, stopAfter) =>
      assert s.CurrentKey() !in sh.ev.attempts;
      BegunEntry(sh.ev, s.CurrentKey(), observerRaises, stopAfter);
    case Receive(r, _, _) => FinishedEntry(AddRecord(sh.ev, r), s.CurrentKey(), Completed);
    case Abort(error) =>
      if s.active.Some? {
        FinishedEntry(sh.ev, s.CurrentKey(), StatusOf(error));
      }
    case _ =>
  }

  lemma ActKeepsCompleted(l: Level, i: nat, e: Event, spendSeen: bool)
    requires LevelInv(l) && Allowed(l, Act(i, e, spendSeen)) && CompletedAreRecorded(l.sh.ev)
    ensures CompletedAreRecorded(ActOn(l, i, e, spendSeen).sh.ev)
  {
    var s := l.workers[i].place.sess;
    var ev := ActOn(l, i, e, spendSeen).sh.ev;
    assert Attached(l.spec, l.concurrency, s, l.sh);
    TouchRecords(l.spec, s, e, spendSeen, l.sh);
    forall k
      ensures IsCompleted(ev, k) <==> HasKey(ev.records, k)
    {
      EntryAndRecord(l.spec, l.concurrency, s, e, spendSeen, l.sh, k);
    }
  }

  lemma EntryAndRecord(spec: SessionSpec, concurrency: nat, s: Sess, e: Event, spendSeen: bool, sh: Shared,
                       k: AttemptKey)
    requires Attached(spec, concurrency, s, sh) && Legal(spec, s, e)
    requires IsCompleted(sh.ev, k) <==> HasKey(sh.ev.records, k)
    ensures var ev := Touch(spec, s, e, spendSeen, sh).ev; IsCompleted(ev, k) <==> HasKey(ev.records, k)
  {
    TouchRecords(spec, s, e, spendSeen, sh);
    if k == s.CurrentKey() {
      OwnEntry(spec, concurrency, s, e, spendSeen, sh);
    } else {
      TouchAttempts(spec, s, e, spendSeen, sh, k);
    }
    if e.Receive? {
      assert e.record.Key() == s.CurrentKey();
      KeySnoc(sh.ev.records, e.record, k);
    }
  }

  /** The session that stands at an attempt is the only one that can have it in flight. */
  lemma OnlyOwner(l: Level, i: nat, k: AttemptKey)
    requires LevelInv(l) && i < |l.workers| && l.workers[i].place.Busy?
    requires k.sessionId == l.workers[i].place.sess.id && InFlight(l.workers, k)
    ensures InFlightAt(l.workers[i], k)
  {
    var j :| 0 <= j < |l.workers| && InFlightAt(l.workers[j], k);
    assert Attached(l.spec, l.concurrency, l.workers[j].place.sess, l.sh);
  }

  lemma OthersStayInFlight(ws: seq<Worker>, i: nat, w: Worker, k: AttemptKey)
    requires i < |ws| && InFlight(ws, k) && !InFlightAt(ws[i], k)
    ensures InFlight(ws[i := w], k)
  {
    var j :| 0 <= j < |ws| && InFlightAt(ws[j], k);
    assert InFlightAt(ws[i := w][j], k);
  }

  lemma ActKeepsStarting(l: Level, i: nat, e: Event, spendSeen: bool)
    requires LevelInv(l) && Allowed(l, Act(i, e, spendSeen)) && StartingAreInFlight(l.workers, l.sh.ev)
    ensures StartingAreInFlight(ActOn(l, i, e, spendSeen).workers, ActOn(l, i, e, spendSeen).sh.ev)
  {
    var m := ActOn(l, i, e, spendSeen);
    forall k | IsStarting(m.sh.ev, k)
      ensures InFlight(m.workers, k)
    {
      StartingStaysInFlight(l, i, e, spendSeen, k);
    }
  }

  lemma StartingStaysInFlight(l: Level, i: nat, e: Event, spendSeen: bool, k: AttemptKey)
    requires LevelInv(l) && Allowed(l, Act(i, e, spendSeen)) && StartingAreInFlight(l.workers, l.sh.ev)
    requires IsStarting(ActOn(l, i, e, spendSeen).sh.ev, k)
    ensures InFlight(ActOn(l, i, e, spendSeen).workers, k)
  {
    var s, m := l.workers[i].place.sess, ActOn(l, i, e, spendSeen);
    assert Attached(l.spec, l.concurrency, s, l.sh);
    if k == s.CurrentKey() {
      OwnEntry(l.spec, l.concurrency, s, e, spendSeen, l.sh);
      if Step(l.spec, s, e).active == Some(k) {
        StepKeepsPosition(l.spec, s, e);
        assert InFlightAt(m.workers[i], k);
      } else {
        assert IsStarting(l.sh.ev, k);
        OnlyOwner(l, i, k);
      }
    } else {
      TouchAttempts(l.spec, s, e, spendSeen, l.sh, k);
      OthersStayInFlight(l.workers, i, m.workers[i], k);
    }
  }

  // ----- every run of a level

  lemma MoveKeepsAttempts(l: Level, i: nat, place: Place)
    requires AttemptsInv(l) && i < |l.workers| && !l.workers[i].place.Busy? && !l.main.Ended?
    ensures AttemptsInv(Move(l, i, place))
  {
    var m := Move(l, i, place);
    forall k | IsStarting(m.sh.ev, k)
      ensures InFlight(m.workers, k)
    {
      assert IsStarting(l.sh.ev, k);
      OthersStayInFlight(l.workers, i, m.workers[i], k);
    }
  }

  /** Workers, attempts and records are as before. */
  ghost predicate SameAttempts(l: Level, m: Level) {
    && m.workers == l.workers
    && m.sh.ev.attempts == l.sh.ev.attempts && m.sh.ev.records == l.sh.ev.records
    && (m.main.Ended? ==> forall i :: 0 <= i < |m.workers| ==> !m.workers[i].place.Busy?)
  }

  lemma SameAttemptsKeepInv(l: Level, m: Level)
    requires AttemptsInv(l) && SameAttempts(l, m)
    ensures AttemptsInv(m)
  {
    forall k
      ensures IsCompleted(m.sh.ev, k) <==> IsCompleted(l.sh.ev, k)
      ensures IsStarting(m.sh.ev, k) <==> IsStarting(l.sh.ev, k)
    {
    }
  }

  lemma RestKeepsAttempts(l: Level, e: LevelEvent)
    requires Allowed(l, e) && (e.SetStop? || e.ChildFailed? || e.CancelLevel? || e.Join?)
    ensures SameAttempts(l, Apply(l, e))
  {
  }

  lemma ApplyKeepsAttempts(l: Level, e: LevelEvent)
    requires LevelInv(l) && AttemptsInv(l) && Allowed(l, e)
    ensures AttemptsInv(Apply(l, e))
  {
    match e
    case Act(i, event, spendSeen) =>
      ActKeepsCompleted(l, i, event, spendSeen);
      ActKeepsStarting(l, i, event, spendSeen);
    case StartSession(i, id, nTurns) =>
      MoveKeepsAttempts(l, i, Busy(Fresh(id, l.concurrency, nTurns)));
      SameAttemptsKeepInv(Move(l, i, Busy(Fresh(id, l.concurrency, nTurns))), Apply(l, e));
    case Report(i, error, deadlinePassed) =>
      MoveKeepsAttempts(l, i, Apply(l, e).workers[i].place);
    case LeaveLoop(i) => MoveKeepsAttempts(l, i, Returned);
    case CancelIdle(i) => MoveKeepsAttempts(l, i, Dead(CancelledError));
    case _ =>
      RestKeepsAttempts(l, e);
      SameAttemptsKeepInv(l, Apply(l, e));
  }

  lemma {:induction false} RunKeepsAttempts(l: Level, es: seq<LevelEvent>, m: Level)
    requires LevelInv(l) && AttemptsInv(l) && IsRun(l, es, m)
    ensures AttemptsInv(m)
    decreases |es|
  {
    if es != [] {
      ApplyKeepsAttempts(l, es[0]);
      ApplyKeepsInv(l, es[0]);
      RunKeepsAttempts(Apply(l, es[0]), es[1..], m);
    }
  }

  lemma BeginAttempts(sh: Shared, concurrency: nat, spec: SessionSpec)
    requires Settled(sh.ev)
    ensures AttemptsInv(Begin(sh, concurrency, spec))
  {
    var ev := Begin(sh, concurrency, spec).sh.ev;
    assert ev.attempts == sh.ev.attempts && ev.records == sh.ev.records;
    forall k
      ensures (IsCompleted(ev, k) <==> HasKey(ev.records, k)) && !IsStarting(ev, k)
    {
      assert IsCompleted(ev, k) <==> IsCompleted(sh.ev, k);
      assert IsStarting(ev, k) <==> IsStarting(sh.ev, k);
    }
  }

  lemma EndedIsSettled(l: Level)
    requires AttemptsInv(l) && l.main.Ended?
    ensures Settled(l.sh.ev)
  {
  }

  /**
   * In every reachable state of a level, whatever was raised, cancelled or stopped: an attempt still
   * starting is the one some worker has in flight, and the attempts finished as completed are exactly
   * those with a record. A level that has ended leaves no attempt starting.
   */
  lemma AttemptsAreAccountedFor(sh: Shared, concurrency: nat, spec: SessionSpec, es: seq<LevelEvent>, m: Level,
                                k: AttemptKey)
    requires SharedInv(sh, spec.maxAttempts) && Settled(sh.ev) && IsRun(Begin(sh, concurrency, spec), es, m)
    ensures IsStarting(m.sh.ev, k) ==> InFlight(m.workers, k) && !m.main.Ended?
    ensures IsCompleted(m.sh.ev, k) <==> HasKey(m.sh.ev.records, k)
  {
    BeginInv(sh, concurrency, spec);
    BeginAttempts(sh, concurrency, spec);
    RunKeepsAttempts(Begin(sh, concurrency, spec), es, m);
    if m.main.Ended? {
      EndedIsSettled(m);
    }
  }

  // ----- every run of a ramp

  ghost predicate RampAttempts(r: Ramp) {
    match r.stage
    case Inside(l) => AttemptsInv(l)
    case _ => Settled(r.sh.ev)
  }

  lemma SettledStays(ev: Evidence, now: Evidence)
    requires Settled(ev) && now.attempts == ev.attempts && now.records == ev.records
    ensures Settled(now)
  {
    forall k
      ensures IsCompleted(now, k) <==> IsCompleted(ev, k)
      ensures IsStarting(now, k) <==> IsStarting(ev, k)
    {
    }
  }

  lemma RampStepKeepsAttempts(r: Ramp, e: RampEvent, start: Evidence)
    requires RampInv(r, start) && RampAttempts(r) && AllowedNow(r, e)
    ensures RampAttempts(ApplyRamp(r, e))
  {
    match e
    case EnterLevel =>
      if r.next < |r.levels| && !r.sh.acct.stopped {
        BeginAttempts(r.sh, r.levels[r.next], r.spec);
      } else {
        SettledStays(r.sh.ev, ApplyRamp(r, e).sh.ev);
      }
    case Inner(event) =>
      assert InsideInv(r, r.stage.level);
      ApplyKeepsAttempts(r.stage.level, event);
    case LeaveLevel(callback, callbackStops) =>
      EndedIsSettled(r.stage.level);
      LeaveFacts(r, r.stage.level, callback, callbackStops);
      SettledStays(r.stage.level.sh.ev, ApplyRamp(r, e).sh.ev);
  }

  lemma {:induction false} RampKeepsAttempts(r: Ramp, es: seq<RampEvent>, q: Ramp, start: Evidence)
    requires RampInv(r, start) && RampAttempts(r) && IsRampRun(r, es, q)
    ensures RampAttempts(q)
    decreases |es|
  {
    if es != [] {
      RampStepKeepsAttempts(r, es[0], start);
      RampStepKeepsInv(r, es[0], start);
      RampKeepsAttempts(ApplyRamp(r, es[0]), es[1..], q, start);
    }
  }

  /** However a ramp ends, no attempt is left starting, and the completed attempts are the recorded ones. */
  lemma RampLeavesNoneStarting(spec: SessionSpec, levels: seq<nat>, sh: Shared, es: seq<RampEvent>, q: Ramp,
                               k: AttemptKey)
    requires EndsAs(spec, levels, sh, es, q) && Settled(sh.ev)
    ensures !IsStarting(q.sh.ev, k)
    ensures IsCompleted(q.sh.ev, k) <==> HasKey(q.sh.ev.records, k)
  {
    var r := StartRamp(spec, levels, sh);
    SharedStays(sh, r.sh, spec.maxAttempts);
    StartIsFine(spec, levels, r.sh);
    SettledStays(sh.ev, r.sh.ev);
    RampKeepsAttempts(r, es, q, r.sh.ev);
  }
}
