/**
 * A ramp that runs.
 *
 * The results about ramps are for every run of the machine. This is one run, step by step: a capped ramp
 * of one level, with one worker that holds one session of one answered request, up to its normal return.
 * The smaller pieces are runs of the level, joined and lifted to runs of the ramp.
 */
module RampExample {
  import opened Basics
  import opened Records
  import opened Cost
  import opened Budget
  import opened Lifecycle
  import opened Session
  import opened Pool
  import opened Ramp

  const SPEC := SessionSpec(1, 0)
  const RATES := Rates(1.0, 1.0)
  const ANSWERED := RequestRecord("s", 1, 0, 1, true, Some(200), Some(5), Some(7), None, false, 0.0, None, 10.0,
                                  None, None, None, None)

  function FreshShared(): (shared: Shared) {
    Shared(Opened(RATES, Some(1.0)), NO_EVIDENCE, {}, true)
  }

  lemma {:induction false} RunSnoc(l: Level, es: seq<LevelEvent>, m: Level, e: LevelEvent)
    requires IsRun(l, es, m) && Allowed(m, e)
    ensures IsRun(l, es + [e], Apply(m, e))
    decreases |es|
  {
    if es == [] {
      assert [e][1..] == [];
    } else {
      assert (es + [e])[1..] == es[1..] + [e];
      RunSnoc(Apply(l, es[0]), es[1..], m, e);
    }
  }

  lemma {:induction false} RampSnoc(r: Ramp, es: seq<RampEvent>, q: Ramp, e: RampEvent)
    requires IsRampRun(r, es, q) && AllowedNow(q, e)
    ensures IsRampRun(r, es + [e], ApplyRamp(q, e))
    decreases |es|
  {
    if es == [] {
      assert [e][1..] == [];
    } else {
      assert (es + [e])[1..] == es[1..] + [e];
      RampSnoc(ApplyRamp(r, es[0]), es[1..], q, e);
    }
  }

  /** A run of the level is a run of the ramp that is inside it. */
  lemma {:induction false} InnerRun(r: Ramp, l: Level, es: seq<LevelEvent>, m: Level) returns (inner: seq<RampEvent>)
    requires r.stage == Inside(l) && IsRun(l, es, m)
    ensures IsRampRun(r, inner, r.(stage := Inside(m)))
    decreases |es|
  {
    if es == [] {
      inner := [];
    } else {
      var l' := Apply(l, es[0]);
      var rest := InnerRun(r.(stage := Inside(l')), l', es[1..], m);
      inner := [Inner(es[0])] + rest;
      assert inner[1..] == rest;
    }
  }

  function Mid(sess: Sess, sh: Shared): (level: Level) {
    Level(1, SPEC, sh, [Worker(0, Busy(sess))], Gathering)
  }

  const OPEN := OpenTurn(false, Some("hi"))
  const BEGIN := BeginAttempt(false, None, false)
  const RECEIVE := Receive(ANSWERED, "hello", None)

  /** The session of the example, step by step. */
  function Asked(): (s: Sess)
    ensures s.phase == AttemptTop && s.CurrentKey() == ANSWERED.Key()
  {
    Step(SPEC, Fresh("s", 1, 1), OPEN)
  }

  function Waiting(): (s: Sess)
    ensures s.phase == InFlight && s.CurrentKey() == ANSWERED.Key()
  {
    Step(SPEC, Asked(), BEGIN)
  }

  function Told(): (s: Sess)
    ensures s.phase == TurnEnd && s.accepted.Some? && s.turn == 0 && s.nTurns == s.completed == 1
  {
    Step(SPEC, Waiting(), RECEIVE)
  }

  lemma OpeningSteps(sh: Shared) returns (es: seq<LevelEvent>, m: Level)
    requires !sh.acct.stopped && sh.used == {} && sh.ev.attempts == map[]
    ensures IsRun(Begin(sh, 1, SPEC), es, m)
    ensures m == Mid(Waiting(), m.sh) && m.sh.acct == sh.acct && m.sh.quiet == sh.quiet
    ensures m.sh.ev.records == sh.ev.records && m.sh.ev.sessions == sh.ev.sessions
  {
    var l0 := Begin(sh, 1, SPEC);
    var e1, e2 := StartSession(0, "s", 1), Act(0, OPEN, true);
    var e3 := Act(0, BEGIN, true);
    RunSnoc(l0, [], l0, e1);
    var l1 := Apply(l0, e1);
    assert l1 == Mid(Fresh("s", 1, 1), l1.sh);
    RunSnoc(l0, [] + [e1], l1, e2);
    var l2 := Apply(l1, e2);
    assert l2.workers[0] == Worker(0, Busy(Asked()));
    RunSnoc(l0, [] + [e1] + [e2], l2, e3);
    es, m := [] + [e1] + [e2] + [e3], Apply(l2, e3);
    assert m.workers[0] == Worker(0, Busy(Waiting()));
  }

  lemma AnswerStep(l: Level)
    requires l == Mid(Waiting(), l.sh) && l.sh.acct == Opened(RATES, Some(1.0))
    requires l.sh.ev.records == [] && l.sh.ev.sessions == []
    ensures Allowed(l, Act(0, RECEIVE, true))
    ensures var m := Apply(l, Act(0, RECEIVE, true));
            && m == Mid(Told(), m.sh) && !m.sh.acct.stopped && 0.0 < m.sh.acct.known < 1.0
            && m.sh.ev.records == [ANSWERED] && m.sh.ev.sessions == []
  {
  }

  lemma CloseStep(l: Level)
    requires l == Mid(Told(), l.sh) && l.sh.ev.sessions == []
    ensures Allowed(l, Act(0, EndTurn(false), true))
    ensures var m := Apply(l, Act(0, EndTurn(false), true));
            && m.concurrency == |m.workers| == 1 && m.workers[0].place.After? && m.main == Gathering
            && m.sh.acct == l.sh.acct && m.sh.ev.records == l.sh.ev.records
            && |m.sh.ev.sessions| == 1 && m.sh.ev.sessions[0].ok
  {
  }

  lemma JoinSteps(l: Level, es: seq<LevelEvent>, l0: Level) returns (all: seq<LevelEvent>, m: Level)
    requires IsRun(l0, es, l)
    requires l.concurrency == |l.workers| == 1 && l.workers[0].place.After? && l.main == Gathering
    requires !l.sh.acct.stopped
    ensures IsRun(l0, all, m) && m.main == Ended(Completed, None) && m.concurrency == 1
    ensures m.sh.acct == l.sh.acct && m.sh.ev.records == l.sh.ev.records && m.sh.ev.sessions == l.sh.ev.sessions
    ensures 1 in m.sh.ev.levelStatus && m.sh.ev.levelStatus[1] == Completed
  {
    var report, join := Report(0, None, true), Join(None);
    RunSnoc(l0, es, l, report);
    var l1 := Apply(l, report);
    RunSnoc(l0, es + [report], l1, join);
    all, m := es + [report] + [join], Apply(l1, join);
  }

  lemma {:induction false} RampJoin(r: Ramp, es: seq<RampEvent>, p: Ramp, more: seq<RampEvent>, q: Ramp)
    requires IsRampRun(r, es, p) && IsRampRun(p, more, q)
    ensures IsRampRun(r, es + more, q)
    decreases |es|
  {
    if es == [] {
      assert es + more == more;
    } else {
      assert (es + more)[1..] == es[1..] + more;
      RampJoin(ApplyRamp(r, es[0]), es[1..], p, more, q);
    }
  }

  /** The whole level, from its first look at the stop flag to its join. */
  lemma LevelRuns(sh: Shared) returns (es: seq<LevelEvent>, m: Level)
    requires sh.acct == Opened(RATES, Some(1.0)) && sh.used == {} && sh.ev.attempts == map[]
    requires sh.ev.records == [] && sh.ev.sessions == []
    ensures IsRun(Begin(sh, 1, SPEC), es, m) && m.main == Ended(Completed, None) && m.concurrency == 1
    ensures !m.sh.acct.stopped && 0.0 < m.sh.acct.known < 1.0
    ensures m.sh.ev.records == [ANSWERED] && |m.sh.ev.sessions| == 1 && m.sh.ev.sessions[0].ok
    ensures 1 in m.sh.ev.levelStatus && m.sh.ev.levelStatus[1] == Completed
  {
    var l0 := Begin(sh, 1, SPEC);
    var opening, l := OpeningSteps(sh);
    AnswerStep(l);
    RunSnoc(l0, opening, l, Act(0, RECEIVE, true));
    var l1 := Apply(l, Act(0, RECEIVE, true));
    CloseStep(l1);
    RunSnoc(l0, opening + [Act(0, RECEIVE, true)], l1, Act(0, EndTurn(false), true));
    es, m := JoinSteps(Apply(l1, Act(0, EndTurn(false), true)),
                       opening + [Act(0, RECEIVE, true)] + [Act(0, EndTurn(false), true)], l0);
  }

  /** Leaving the last level and finding no other. */
  lemma LeaveSteps(r0: Ramp, es: seq<RampEvent>, r: Ramp, l: Level) returns (all: seq<RampEvent>, q: Ramp)
    requires IsRampRun(r0, es, r) && r.stage == Inside(l) && r.next == 0 && |r.levels| == 1
    requires l.main == Ended(Completed, None) && !l.sh.acct.stopped
    ensures IsRampRun(r0, all, q) && q.stage == Left(false, None) && q.next == 1
    ensures q.sh == l.sh.(ev := l.sh.ev.(status := Completed))
  {
    var leave := LeaveLevel(None, false);
    RampSnoc(r0, es, r, leave);
    var r1 := ApplyRamp(r, leave);
    RampSnoc(r0, es + [leave], r1, EnterLevel);
    all, q := es + [leave] + [EnterLevel], ApplyRamp(r1, EnterLevel);
  }

  lemma FreshIsSound()
    ensures SharedInv(FreshShared(), SPEC.maxAttempts)
  {
    OpenedIsBelowCap(RATES, Some(1.0));
  }

  /**
   * The results over finished ramps are about something: under a cap, a ramp of one level of one worker
   * can run to a normal return, marked completed, with an answered session and a charged record.
   */
  lemma CompletedRampExists() returns (es: seq<RampEvent>, q: Ramp)
    ensures EndsAs(SPEC, [1], FreshShared(), es, q)
    ensures q.stage == Left(false, None) && q.sh.ev.status == Completed && q.next == 1
    ensures q.sh.ev.records == [ANSWERED] && |q.sh.ev.sessions| == 1 && q.sh.ev.sessions[0].ok
    ensures 1 in q.sh.ev.levelStatus && q.sh.ev.levelStatus[1] == Completed
    ensures 0.0 < q.sh.acct.known < 1.0
  {
    var r0 := StartRamp(SPEC, [1], FreshShared());
    RampSnoc(r0, [], r0, EnterLevel);
    var r1 := ApplyRamp(r0, EnterLevel);
    var steps, m := LevelRuns(r0.sh);
    var inner := InnerRun(r1, r1.stage.level, steps, m);
    RampJoin(r0, [EnterLevel], r1, inner, r1.(stage := Inside(m)));
    es, q := LeaveSteps(r0, [EnterLevel] + inner, r1.(stage := Inside(m)), m);
    FreshIsSound();
  }
}
