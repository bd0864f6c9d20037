/** examples/multi-agent/app.py: the fetch limiter, read off the events of its schedule alone. */
module FetchRuns {
  import opened Basics
  import opened FetchLimiter

  /** The time from which the limiter lets the next call through: a gap after the last grant. */
  predicate MustWait(rate: real, grants: seq<real>, now: real) {
    rate != 0.0 && grants != [] && now < grants[|grants| - 1] + 1.0 / rate
  }

  /** When calls got past the limiter: at once when nothing holds them back, else when they wake. */
  function GrantsOf(rate: real, events: seq<Event>): (grants: seq<real>) {
    if events == [] then []
    else
      var before := GrantsOf(rate, events[..|events| - 1]);
      match events[|events| - 1]
      case Acquire(_, now, again) => if MustWait(rate, before, now) then before else before + [again]
      case Wake(_, now) => before + [now]
      case _ => before
  }

  /** Where a call stands after its own last event. */
  function PhaseOf(rate: real, events: seq<Event>, id: int): (phase: Option<Phase>) {
    if events == [] then None
    else
      var earlier := events[..|events| - 1];
      var before := PhaseOf(rate, earlier, id);
      if events[|events| - 1].id != id then before
      else
        match events[|events| - 1]
        case Call(_, _, ready) => Some(if ready then Queued else Done(false, Refused))
        case Acquire(_, now, _) =>
          var grants := GrantsOf(rate, earlier);
          Some(if MustWait(rate, grants, now) then Sleeping(grants[|grants| - 1] + 1.0 / rate) else Serving)
        case Wake(_, _) => Some(Serving)
        case Cancel(_, _, timedOut) => Some(Done(before == Some(Serving), if timedOut then TimedOut else Abandoned))
        case Respond(_, _, ok) => Some(Done(true, if ok then Answered else Failed))
  }

  function Calls(): (p: Event -> bool) {
    (e: Event) => e.Call?
  }

  function Errors(): (p: Event -> bool) {
    (e: Event) => (e.Cancel? && e.timedOut) || (e.Respond? && !e.ok)
  }

  lemma {:induction false} RunSnoc(s: State, events: seq<Event>, e: Event)
    ensures LegalRun(s, events + [e]) <==> LegalRun(s, events) && Legal(Run(s, events), e)
    ensures LegalRun(s, events + [e]) ==> Run(s, events + [e]) == Step(Run(s, events), e)
    decreases |events|
  {
    if events == [] {
      assert ([] + [e])[1..] == [];
    } else if Legal(s, events[0]) {
      RunSnoc(Step(s, events[0]), events[1..], e);
      assert (events + [e])[1..] == events[1..] + [e];
    }
  }

  /** The state after these events. */
  ghost predicate Follows(s: State, rate: real, events: seq<Event>) {
    && s.rate == rate && s.grants == GrantsOf(rate, events)
    && (forall id :: (id in s.calls <==> PhaseOf(rate, events, id).Some?)
                     && (id in s.calls ==> s.calls[id] == PhaseOf(rate, events, id).value))
    && s.fetchCalls == Count(events, Calls()) && s.fetchErrors == Count(events, Errors())
  }

  lemma StepFollows(s: State, rate: real, events: seq<Event>, e: Event)
    requires Inv(s) && Legal(s, e) && Follows(s, rate, events)
    ensures Follows(Step(s, e), rate, events + [e])
  {
    assert (events + [e])[..|events|] == events;
    CountSnoc(events, e, Calls());
    CountSnoc(events, e, Errors());
  }

  /** The whole state, read off the schedule: who stands where, when calls got through, what was counted. */
  lemma {:induction false} ScheduleTells(rate: real, clock: real, events: seq<Event>)
    requires rate >= 0.0 && clock >= 0.0 && LegalRun(Initial(rate, clock), events)
    ensures Follows(Run(Initial(rate, clock), events), rate, events)
    decreases |events|
  {
    var start := Initial(rate, clock);
    if events != [] {
      var n := |events| - 1;
      var before, e := events[..n], events[n];
      assert events == before + [e];
      RunSnoc(start, before, e);
      ScheduleTells(rate, clock, before);
      InitialInv(rate, clock);
      RunKeepsInv(start, before);
      StepFollows(Run(start, before), rate, before, e);
    }
  }

  /** The last clock reading taken; a call let through reads it again. */
  function ClockOf(rate: real, clock: real, events: seq<Event>): (now: real) {
    if events == [] then clock
    else
      match events[|events| - 1]
      case Acquire(_, now, again) =>
        if MustWait(rate, GrantsOf(rate, events[..|events| - 1]), now) then now else again
      case e => e.now
  }

  lemma StepClock(s: State, rate: real, clock: real, events: seq<Event>, e: Event)
    requires Inv(s) && Legal(s, e) && Follows(s, rate, events)
    ensures Step(s, e).clock == ClockOf(rate, clock, events + [e])
  {
    assert (events + [e])[..|events|] == events;
  }

  lemma ClockTells(rate: real, clock: real, events: seq<Event>)
    requires rate >= 0.0 && clock >= 0.0 && LegalRun(Initial(rate, clock), events)
    ensures Run(Initial(rate, clock), events).clock == ClockOf(rate, clock, events)
  {
    if events != [] {
      var before, e := events[..|events| - 1], events[|events| - 1];
      assert events == before + [e];
      RunSnoc(Initial(rate, clock), before, e);
      ScheduleTells(rate, clock, before);
      InitialInv(rate, clock);
      RunKeepsInv(Initial(rate, clock), before);
      StepClock(Run(Initial(rate, clock), before), rate, clock, before, e);
    }
  }

  /** Nobody sleeps with the lock. */
  ghost predicate LockIsFree(rate: real, events: seq<Event>) {
    forall id :: PhaseOf(rate, events, id).Some? ==> !PhaseOf(rate, events, id).value.Sleeping?
  }

  /** What may happen next, after the events so far: the clock never goes back and each call waits for one thing. */
  ghost predicate MayHappen(rate: real, clock: real, events: seq<Event>, e: Event) {
    && e.now >= ClockOf(rate, clock, events)
    && match (PhaseOf(rate, events, e.id), e)
       case (None, Call(_, _, _)) => true
       case (Some(Queued), Acquire(_, now, again)) => LockIsFree(rate, events) && again >= now
       case (Some(Sleeping(until)), Wake(_, now)) => now >= until
       case (Some(Serving), Respond(_, _, _)) => true
       case (Some(phase), Cancel(_, _, _)) => !phase.Done?
       case _ => false
  }

  lemma LockTells(s: State, rate: real, events: seq<Event>)
    requires Inv(s) && Follows(s, rate, events)
    ensures s.holder.None? <==> LockIsFree(rate, events)
  {
    if s.holder.Some? {
      var h := s.holder.value;
      assert (h in s.calls && s.calls[h].Sleeping?) <==> s.holder == Some(h);
    }
  }

  /** The events a schedule can go on with are exactly these. */
  lemma WhatMayHappen(rate: real, clock: real, events: seq<Event>, e: Event)
    requires rate >= 0.0 && clock >= 0.0 && LegalRun(Initial(rate, clock), events)
    ensures LegalRun(Initial(rate, clock), events + [e]) <==> MayHappen(rate, clock, events, e)
  {
    RunSnoc(Initial(rate, clock), events, e);
    ScheduleTells(rate, clock, events);
    ClockTells(rate, clock, events);
    InitialInv(rate, clock);
    RunKeepsInv(Initial(rate, clock), events);
    LockTells(Run(Initial(rate, clock), events), rate, events);
  }
}
