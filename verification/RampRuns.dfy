/** kneepoint/generator/ramp.py: how a ramp ends and what it hands over, read off the events of its run alone. */
module RampRuns {
  import opened Basics
  import opened Records
  import opened Session
  import opened Pool
  import opened LevelRuns
  import opened LevelEvidence
  import opened Grouping
  import opened Ramp

  /** The events of the level entered last. */
  function LevelEvents(es: seq<RampEvent>): (events: seq<LevelEvent>) {
    if es == [] || !es[|es| - 1].Inner? then [] else LevelEvents(es[..|es| - 1]) + [es[|es| - 1].event]
  }

  function LevelsLeft(es: seq<RampEvent>): (n: nat) {
    if es == [] then 0 else LevelsLeft(es[..|es| - 1]) + if es[|es| - 1].LeaveLevel? then 1 else 0
  }

  /** What a level raised: the exit of its client, else its first failure or cancellation. */
  function LevelRaised(spec: SessionSpec, c: nat, events: seq<LevelEvent>): (raised: Option<Raised>) {
    if events == [] || !events[|events| - 1].Join? then None
    else if events[|events| - 1].exitRaises.Some? then events[|events| - 1].exitRaises
    else FirstFailure(spec, c, events)
  }

  /** The level that is left by the last event. */
  function LevelOf(levels: seq<nat>, es: seq<RampEvent>): (c: nat) {
    if 1 <= LevelsLeft(es) <= |levels| then levels[LevelsLeft(es) - 1] else 0
  }

  /** What leaving a level raises: what the level raised, else what the level callback raised. */
  function RaisedLeaving(spec: SessionSpec, levels: seq<nat>, es: seq<RampEvent>): (raised: Option<Raised>)
    requires es != []
  {
    match es[|es| - 1]
    case LeaveLevel(callback, _) =>
      var fromLevel := LevelRaised(spec, LevelOf(levels, es), LevelEvents(es[..|es| - 1]));
      if fromLevel.Some? then fromLevel else callback
    case _ => None
  }

  lemma {:induction false} LastRampStep(r: Ramp, es: seq<RampEvent>, q: Ramp) returns (p: Ramp)
    requires IsRampRun(r, es, q) && es != []
    ensures IsRampRun(r, es[..|es| - 1], p) && AllowedNow(p, es[|es| - 1]) && q == ApplyRamp(p, es[|es| - 1])
    decreases |es|
  {
    if |es| == 1 {
      p := r;
    } else {
      p := LastRampStep(ApplyRamp(r, es[0]), es[1..], q);
      assert es[1..][..|es| - 2] == es[..|es| - 1][1..];
    }
  }

  /** The ramp counts the levels it left; `p` is a state between levels or inside one. */
  lemma {:induction false} NextCountsLevels(spec: SessionSpec, levels: seq<nat>, sh: Shared, es: seq<RampEvent>,
                                            q: Ramp)
    requires IsRampRun(StartRamp(spec, levels, sh), es, q)
    ensures q.next == LevelsLeft(es) && q.levels == levels && q.spec == spec
    ensures q.stage.Inside? ==> q.next < |levels|
    ensures q.next <= |levels|
    decreases |es|
  {
    if es != [] {
      var p := LastRampStep(StartRamp(spec, levels, sh), es, q);
      NextCountsLevels(spec, levels, sh, es[..|es| - 1], p);
    }
  }

  lemma Entering(p: Ramp, e: RampEvent, q: Ramp)
    requires AllowedNow(p, e) && e.EnterLevel? && q == ApplyRamp(p, e) && q.stage.Inside?
    ensures p.stage.Between? && !p.sh.acct.stopped && q.before == p.sh.ev && q.handed == p.handed
    ensures p.next < |p.levels| && q.stage.level == Begin(p.sh, p.levels[p.next], p.spec)
  {
  }

  lemma GoingOn(p: Ramp, e: RampEvent, q: Ramp)
    requires AllowedNow(p, e) && !e.EnterLevel? && q == ApplyRamp(p, e) && q.stage.Inside?
    ensures e.Inner? && p.stage.Inside? && Allowed(p.stage.level, e.event)
    ensures q.stage.level == Apply(p.stage.level, e.event) && q.before == p.before && q.handed == p.handed
  {
  }

  /** Inside a level the ramp is in a run of that level, begun on what the shared objects held between levels. */
  lemma {:induction false} EnteredLevel(spec: SessionSpec, levels: seq<nat>, sh: Shared, es: seq<RampEvent>, q: Ramp)
    returns (n: nat, k: Ramp)
    requires IsRampRun(StartRamp(spec, levels, sh), es, q) && q.stage.Inside?
    ensures n < |es| && es[n].EnterLevel? && IsRampRun(StartRamp(spec, levels, sh), es[..n], k)
    ensures k.stage.Between? && !k.sh.acct.stopped && q.before == k.sh.ev && q.handed == k.handed
    ensures LevelsLeft(es) == LevelsLeft(es[..n]) < |levels|
    ensures IsRun(Begin(k.sh, levels[LevelsLeft(es)], spec), LevelEvents(es), q.stage.level)
    decreases |es|
  {
    var before, e := es[..|es| - 1], es[|es| - 1];
    var p := LastRampStep(StartRamp(spec, levels, sh), es, q);
    NextCountsLevels(spec, levels, sh, before, p);
    if e.EnterLevel? {
      n, k := |es| - 1, p;
      Entering(p, e, q);
    } else {
      GoingOn(p, e, q);
      n, k := EnteredLevel(spec, levels, sh, before, p);
      assert before[..n] == es[..n];
      RunSnoc(Begin(k.sh, levels[LevelsLeft(es)], spec), LevelEvents(before), p.stage.level, e.event);
    }
  }

  // ----- how a ramp ends

  /** What the level raised and the status it ended with, from its own events. */
  lemma EndedLevel(spec: SessionSpec, levels: seq<nat>, sh: Shared, es: seq<RampEvent>, q: Ramp)
    requires IsRampRun(StartRamp(spec, levels, sh), es, q) && q.stage.Inside? && q.stage.level.main.Ended?
    ensures LevelsLeft(es) < |levels| && q.stage.level.concurrency == levels[LevelsLeft(es)]
    ensures q.stage.level.main.raised == LevelRaised(spec, levels[LevelsLeft(es)], LevelEvents(es))
    ensures q.stage.level.main.raised.None? && !q.stage.level.sh.acct.stopped ==>
              Marked(q.stage.level.sh.ev, levels[LevelsLeft(es)], Completed)
  {
    var n, k := EnteredLevel(spec, levels, sh, es, q);
    var c := levels[LevelsLeft(es)];
    RunFollows(k.sh, c, spec, LevelEvents(es), q.stage.level);
    OutcomeOfLevel(k.sh, c, spec, LevelEvents(es), q.stage.level);
  }

  lemma QuitMeans(r: Ramp, sh: Shared, c: int, error: Raised)
    ensures var q := QuitOn(r, sh, c, error);
            && q.stage == (if error == BudgetError then Left(true, None) else Left(false, Some(error)))
            && q.sh == sh.(ev := sh.ev.(
                 status := if error == BudgetError then BudgetExceeded
                           else if error == CancelledError then Cancelled
                           else Failed,
                 levelStatus := if error == BudgetError then sh.ev.levelStatus[c := BudgetExceeded]
                                else sh.ev.levelStatus))
  {
  }

  /** Leaving a level, by what is raised. */
  lemma LevelLeft(p: Ramp, e: RampEvent, q: Ramp)
    requires AllowedNow(p, e) && e.LeaveLevel? && q == ApplyRamp(p, e)
    ensures var l := p.stage.level;
            var raised := if l.main.raised.Some? then l.main.raised else e.callback;
            && (raised == Some(BudgetError) ==>
                  q.stage == Left(true, None) && Marked(q.sh.ev, l.concurrency, BudgetExceeded))
            && (raised.Some? && raised != Some(BudgetError) ==>
                  && q.stage == Left(false, raised) && q.sh.ev.levelStatus == l.sh.ev.levelStatus
                  && q.sh.ev.status == if raised == Some(CancelledError) then Cancelled else Failed)
            && (raised.None? ==>
                  && q.sh.ev.levelStatus == l.sh.ev.levelStatus
                  && (q.sh.acct.stopped <==> l.sh.acct.stopped || e.callbackStops)
                  && (if q.sh.acct.stopped then q.stage == Left(false, None) && q.sh.ev.status == Stopped
                      else q.stage == Between && q.sh.ev == l.sh.ev))
  {
    var l := p.stage.level;
    if l.main.raised.Some? {
      QuitMeans(p, l.sh, l.concurrency, l.main.raised.value);
    } else if e.callback.Some? {
      QuitMeans(p, l.sh, l.concurrency, e.callback.value);
    }
  }

  /**
   * After a level. Its exception, or else the callback's, ends the ramp: a BudgetError marks run and level as
   * over budget and is not raised, any other is. Without one the stop ends the ramp, else it goes on.
   */
  lemma AfterALevel(spec: SessionSpec, levels: seq<nat>, sh: Shared, es: seq<RampEvent>, q: Ramp)
    requires IsRampRun(StartRamp(spec, levels, sh), es, q) && es != [] && es[|es| - 1].LeaveLevel?
    ensures 1 <= LevelsLeft(es) <= |levels|
    ensures match RaisedLeaving(spec, levels, es)
            case Some(BudgetError) =>
              q.stage == Left(true, None) && Marked(q.sh.ev, levels[LevelsLeft(es) - 1], BudgetExceeded)
            case Some(error) =>
              && q.stage == Left(false, Some(error))
              && q.sh.ev.status == if error == CancelledError then Cancelled else Failed
            case None =>
              if q.sh.acct.stopped then q.stage == Left(false, None) && q.sh.ev.status == Stopped
              else q.stage == Between && Marked(q.sh.ev, levels[LevelsLeft(es) - 1], Completed)
  {
    var before, e := es[..|es| - 1], es[|es| - 1];
    var p := LastRampStep(StartRamp(spec, levels, sh), es, q);
    EndedLevel(spec, levels, sh, before, p);
    LeftAs(p, e, q, levels[LevelsLeft(before)], RaisedLeaving(spec, levels, es));
  }

  lemma LeftAs(p: Ramp, e: RampEvent, q: Ramp, c: nat, raised: Option<Raised>)
    requires AllowedNow(p, e) && e.LeaveLevel? && q == ApplyRamp(p, e) && p.stage.level.concurrency == c
    requires raised == if p.stage.level.main.raised.Some? then p.stage.level.main.raised else e.callback
    requires p.stage.level.main.raised.None? && !p.stage.level.sh.acct.stopped ==>
               Marked(p.stage.level.sh.ev, c, Completed)
    ensures match raised
            case Some(BudgetError) => q.stage == Left(true, None) && Marked(q.sh.ev, c, BudgetExceeded)
            case Some(error) =>
              && q.stage == Left(false, Some(error))
              && q.sh.ev.status == if error == CancelledError then Cancelled else Failed
            case None =>
              if q.sh.acct.stopped then q.stage == Left(false, None) && q.sh.ev.status == Stopped
              else q.stage == Between && Marked(q.sh.ev, c, Completed)
  {
    LevelLeft(p, e, q);
  }

  /** A ramp begins between levels, with nothing handed over and nothing changed but that the run is running. */
  lemma BeforeTheFirst(spec: SessionSpec, levels: seq<nat>, sh: Shared, q: Ramp)
    requires IsRampRun(StartRamp(spec, levels, sh), [], q)
    ensures q.stage == Between && q.handed == [] && q.sh == sh.(ev := sh.ev.(status := Running))
  {
  }

  /** At the head of the loop: no level left completes the run, the stop ends it, else the next level is entered. */
  lemma BeforeALevel(spec: SessionSpec, levels: seq<nat>, sh: Shared, es: seq<RampEvent>, q: Ramp)
    requires IsRampRun(StartRamp(spec, levels, sh), es, q) && es != [] && es[|es| - 1].EnterLevel?
    ensures LevelsLeft(es) <= |levels|
    ensures if LevelsLeft(es) == |levels| then q.stage == Left(false, None) && q.sh.ev.status == Completed
            else if Now(q).acct.stopped then q.stage == Left(false, None) && q.sh.ev.status == Stopped
            else q.stage.Inside? && Marked(Now(q).ev, levels[LevelsLeft(es)], Running)
  {
    var p := LastRampStep(StartRamp(spec, levels, sh), es, q);
    NextCountsLevels(spec, levels, sh, es[..|es| - 1], p);
  }

  /**
   * How every ramp ends. It reports the budget as exceeded exactly when a BudgetError was raised while a
   * level was left, and raises exactly the other exceptions; the status of the run says which it was.
   */
  lemma OutcomeOfRamp(spec: SessionSpec, levels: seq<nat>, sh: Shared, es: seq<RampEvent>, q: Ramp)
    requires IsRampRun(StartRamp(spec, levels, sh), es, q) && q.stage.Left?
    ensures es != []
    ensures q.stage.exceeded <==> RaisedLeaving(spec, levels, es) == Some(BudgetError)
    ensures q.stage.raised == if q.stage.exceeded then None else RaisedLeaving(spec, levels, es)
    ensures q.sh.ev.status == match RaisedLeaving(spec, levels, es)
                              case Some(BudgetError) => BudgetExceeded
                              case Some(CancelledError) => Cancelled
                              case Some(OtherError) => Failed
                              case None => if es[|es| - 1].EnterLevel? && LevelsLeft(es) == |levels| then Completed
                                           else Stopped
    ensures q.sh.ev.status == Stopped ==> q.sh.acct.stopped
  {
    if es != [] {
      if es[|es| - 1].LeaveLevel? {
        AfterALevel(spec, levels, sh, es, q);
      } else if es[|es| - 1].EnterLevel? {
        BeforeALevel(spec, levels, sh, es, q);
      } else {
        var p := LastRampStep(StartRamp(spec, levels, sh), es, q);
      }
    }
  }

  // ----- what it hands over

  /** One slice for each level left without an exception of its own: the sessions it ended, the records it made. */
  function SlicesOf(spec: SessionSpec, levels: seq<nat>, es: seq<RampEvent>): (slices: seq<Slice>) {
    if es == [] then []
    else
      var before := es[..|es| - 1];
      var c, events := LevelOf(levels, es), LevelEvents(before);
      if es[|es| - 1].LeaveLevel? && LevelRaised(spec, c, events).None? then
        SlicesOf(spec, levels, before) + [Slice(c, SessionsOf(Ends(spec, c, events)), Returns(events))]
      else SlicesOf(spec, levels, before)
  }

  lemma SliceIsTheLevel(spec: SessionSpec, levels: seq<nat>, sh: Shared, es: seq<RampEvent>, q: Ramp)
    requires Ascending(levels) && FreshFor(sh.ev, levels) && SharedInv(sh, spec.maxAttempts)
    requires IsRampRun(StartRamp(spec, levels, sh), es, q) && q.stage.Inside?
    ensures LevelsLeft(es) < |levels|
    ensures var c, events := levels[LevelsLeft(es)], LevelEvents(es);
            SliceOf(q.before, q.stage.level.sh.ev, c) == Slice(c, SessionsOf(Ends(spec, c, events)), Returns(events))
  {
    var r := StartRamp(spec, levels, sh);
    var n, k := EnteredLevel(spec, levels, sh, es, q);
    var c := levels[LevelsLeft(es)];
    SharedStays(sh, r.sh, spec.maxAttempts);
    StartIsFine(spec, levels, r.sh);
    RampRunKeepsInv(r, es[..n], k, r.sh.ev);
    EvidenceIsTheRun(k.sh, c, spec, LevelEvents(es), q.stage.level);
  }

  lemma HandedByStep(p: Ramp, e: RampEvent, q: Ramp)
    requires AllowedNow(p, e) && q == ApplyRamp(p, e)
    ensures q.handed == if e.LeaveLevel? && p.stage.level.main.raised.None?
                        then p.handed + [SliceOf(p.before, p.stage.level.sh.ev, p.stage.level.concurrency)]
                        else p.handed
  {
  }

  lemma HandedByLeaving(spec: SessionSpec, levels: seq<nat>, sh: Shared, es: seq<RampEvent>, e: RampEvent, p: Ramp,
                        q: Ramp)
    requires Ascending(levels) && FreshFor(sh.ev, levels) && SharedInv(sh, spec.maxAttempts)
    requires IsRampRun(StartRamp(spec, levels, sh), es, p)
    requires e.LeaveLevel? && AllowedNow(p, e) && q == ApplyRamp(p, e)
    ensures LevelsLeft(es) < |levels|
    ensures var c, events := levels[LevelsLeft(es)], LevelEvents(es);
            q.handed == if LevelRaised(spec, c, events).None?
                        then p.handed + [Slice(c, SessionsOf(Ends(spec, c, events)), Returns(events))]
                        else p.handed
  {
    EndedLevel(spec, levels, sh, es, p);
    SliceIsTheLevel(spec, levels, sh, es, p);
    HandedByStep(p, e, q);
  }

  /** The level callback is handed, level by level, exactly what that level's own events produced. */
  lemma {:induction false} SlicesAreTheLevels(spec: SessionSpec, levels: seq<nat>, sh: Shared, es: seq<RampEvent>,
                                              q: Ramp)
    requires Ascending(levels) && FreshFor(sh.ev, levels) && SharedInv(sh, spec.maxAttempts)
    requires IsRampRun(StartRamp(spec, levels, sh), es, q)
    ensures q.handed == SlicesOf(spec, levels, es)
    decreases |es|
  {
    if es != [] {
      var before, e := es[..|es| - 1], es[|es| - 1];
      var p := LastRampStep(StartRamp(spec, levels, sh), es, q);
      SlicesAreTheLevels(spec, levels, sh, before, p);
      if e.LeaveLevel? {
        HandedByLeaving(spec, levels, sh, before, e, p, q);
      } else {
        HandedByStep(p, e, q);
      }
    }
  }

  /** Nothing but the statuses of run and levels and the stop flag differs. */
  ghost predicate OnlyStatusesMove(before: Shared, after: Shared) {
    && after.ev == before.ev.(status := after.ev.status, levelStatus := after.ev.levelStatus)
    && after.used == before.used && after.quiet == before.quiet
    && after.acct == before.acct.(stopped := after.acct.stopped)
    && (before.acct.stopped ==> after.acct.stopped)
  }

  lemma LeavingTouches(p: Ramp, e: RampEvent)
    requires AllowedNow(p, e) && e.LeaveLevel?
    ensures !ApplyRamp(p, e).stage.Inside? && OnlyStatusesMove(p.stage.level.sh, ApplyRamp(p, e).sh)
  {
    var l := p.stage.level;
    if l.main.raised.Some? {
      QuitMeans(p, l.sh, l.concurrency, l.main.raised.value);
    } else if e.callback.Some? {
      QuitMeans(p, l.sh, l.concurrency, e.callback.value);
    }
  }

  /** Entering and leaving levels lose nothing of what is shared. */
  lemma BetweenLevels(p: Ramp, e: RampEvent)
    requires AllowedNow(p, e) && !e.Inner?
    ensures OnlyStatusesMove(Now(p), Now(ApplyRamp(p, e)))
  {
    if e.LeaveLevel? {
      LeavingTouches(p, e);
    }
  }
}
