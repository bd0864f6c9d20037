/**
 * kneepoint/generator: the objects the workers of a level share, updated in place by any of its runs.
 *
 * The level machine works on values. Here its events are performed on the evidence and the controller
 * themselves, and those end up holding what the machine says.
 */
module SharedObjects {
  import opened Basics
  import opened Records
  import opened Cost
  import opened Budget
  import opened Lifecycle
  import opened Session
  import opened Pool
  import opened Spend

  /** The two objects hold what the machine's shared state holds. */
  ghost predicate Hold(sh: Shared, evidence: RunEvidence, controller: ObservedSpendController)
    reads evidence, controller
  {
    evidence.Value() == sh.ev && controller.Acct() == sh.acct
  }

  /** An attempt is registered, its observer called, the stop flag looked at again. */
  method BeginOn(key: AttemptKey, observerRaises: Option<Raised>, stopAfter: bool,
                 evidence: RunEvidence, controller: ObservedSpendController)
    modifies evidence, controller
    ensures evidence.Value() == Begun(old(evidence.Value()), key, observerRaises, stopAfter)
    ensures controller.Acct() == if stopAfter then Halt(old(controller.Acct())) else old(controller.Acct())
  {
    evidence.StartAttempt(key);
    if stopAfter {
      controller.SetStopEvent();
    }
    if observerRaises.Some? {
      evidence.Finish(key, StatusOf(observerRaises.value));
    } else if stopAfter {
      evidence.Finish(key, Stopped);
    } else {
      evidence.MarkDispatched(key);
    }
  }

  /** `run_session` from one await to the next, on the shared objects. */
  method StepSession(spec: SessionSpec, s: Sess, e: Event, spendSeen: bool, ghost concurrency: nat, ghost sh: Shared,
                     evidence: RunEvidence, controller: ObservedSpendController)
    returns (t: Sess)
    requires Hold(sh, evidence, controller) && Attached(spec, concurrency, s, sh) && Legal(spec, s, e)
    modifies evidence, controller
    ensures t == Step(spec, s, e)
    ensures Hold(Touch(spec, s, e, spendSeen, sh), evidence, controller)
  {
    var key := s.CurrentKey();
    match e {
      case BeginAttempt(stopBefore, observerRaises, stopAfter) =>
        if !stopBefore {
          BeginOn(key, observerRaises, stopAfter, evidence, controller);
        }
      case Receive(r, _, _) =>
        evidence.Append(r);
        evidence.Finish(key, Completed);
        if spendSeen {
          var _ := controller.OnAttemptComplete(r);
        }
      case Abort(error) =>
        if s.active.Some? {
          evidence.Finish(s.active.value, StatusOf(error));
        }
      case _ =>
    }
    t := Step(spec, s, e);
    if t.phase.Closed? {
      evidence.Publish(t.Record(), t.status);
    }
  }

  /** `run_level` up to its first await. */
  method BeginLevel(concurrency: nat, spec: SessionSpec, ghost sh: Shared,
                    evidence: RunEvidence, controller: ObservedSpendController)
    requires Hold(sh, evidence, controller)
    modifies evidence, controller
    ensures Hold(Begin(sh, concurrency, spec).sh, evidence, controller)
  {
    evidence.Mark(concurrency, Running);
    if controller.stopSet {
      evidence.Mark(concurrency, Stopped);
    }
  }

  /** One event of a level, on the shared objects. */
  method Perform(l: Level, e: LevelEvent, evidence: RunEvidence, controller: ObservedSpendController)
    requires LevelInv(l) && Allowed(l, e) && Hold(l.sh, evidence, controller)
    modifies evidence, controller
    ensures Hold(Apply(l, e).sh, evidence, controller)
  {
    match e
    case SetStop => controller.SetStopEvent();
    case Act(i, event, spendSeen) =>
      assert Attached(l.spec, l.concurrency, l.workers[i].place.sess, l.sh);
      var _ := StepSession(l.spec, l.workers[i].place.sess, event, spendSeen, l.concurrency, l.sh,
                           evidence, controller);
    case Join(exitRaises) =>
      var how := if exitRaises.Some? then StatusOf(exitRaises.value)
                 else if l.main.Draining? then StatusOf(l.main.error)
                 else if controller.stopSet then Stopped
                 else Completed;
      evidence.Mark(l.concurrency, how);
    case _ =>
  }

  /**
   * A level held on the objects themselves, for any schedule of its workers: they end as the machine
   * ends, and while no completion observer has raised the controller's totals are sums over the evidence.
   */
  method HoldLevel(concurrency: nat, spec: SessionSpec, schedule: seq<LevelEvent>, sh: Shared, ghost end: Level,
                   evidence: RunEvidence, controller: ObservedSpendController)
    requires SharedInv(sh, spec.maxAttempts) && Hold(sh, evidence, controller)
    requires IsRun(Begin(sh, concurrency, spec), schedule, end)
    modifies evidence, controller
    ensures Hold(end.sh, evidence, controller)
    ensures old(controller.stopSet) ==>
              && evidence.attempts == old(evidence.attempts) && evidence.records == old(evidence.records)
              && evidence.sessions == old(evidence.sessions) && controller.knownSpend == old(controller.knownSpend)
    ensures end.sh.quiet ==> controller.knownSpend == TotalCost(evidence.records, controller.rates)
    ensures end.sh.quiet ==> |evidence.records| == controller.complete + controller.partialUse + controller.missing
  {
    var l := Begin(sh, concurrency, spec);
    BeginInv(sh, concurrency, spec);
    BeginLevel(concurrency, spec, sh, evidence, controller);
    for i := 0 to |schedule|
      invariant LevelInv(l) && Hold(l.sh, evidence, controller)
      invariant IsRun(l, schedule[i..], end)
    {
      assert schedule[i..][0] == schedule[i] && schedule[i..][1..] == schedule[i + 1..];
      Perform(l, schedule[i], evidence, controller);
      ApplyKeepsInv(l, schedule[i]);
      l := Apply(l, schedule[i]);
    }
    if sh.acct.stopped {
      StoppedLevelDoesNothing(sh, concurrency, spec, schedule, end);
    }
    if end.sh.quiet {
      BooksAgreeWithEvidence(sh, concurrency, spec, schedule, end);
    }
  }
}
