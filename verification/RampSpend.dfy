/** The spend and accounting promises over a whole ramp. */
module RampSpend {
  import opened Basics
  import opened Records
  import opened Cost
  import opened Budget
  import opened Lifecycle
  import opened Session
  import opened Pool
  import opened Spend
  import opened Grouping
  import opened Ramp

  ghost predicate CheapRun(es: seq<RampEvent>, rates: Rates, most: real) {
    forall k :: 0 <= k < |es| && es[k].Inner? ==> ChargesAtMost(es[k].event, rates, most)
  }

  /** Known spend never exceeds the cap by as much as `top` charges, at every point of the ramp. */
  ghost predicate RampReserved(r: Ramp, rates: Rates, cap: real, most: real, top: nat) {
    && Now(r).acct.rates == rates && Now(r).acct.cap == Some(cap)
    && (forall j :: 0 <= j < |r.levels| ==> r.levels[j] <= top)
    && if r.stage.Inside? then r.stage.level.concurrency <= top && Reserved(r.stage.level, cap, most)
       else r.sh.acct.known < cap + Times(top, most)
  }

  lemma LeaveReserved(l: Level, cap: real, most: real, top: nat)
    requires Reserved(l, cap, most) && 0.0 <= most && l.concurrency <= top
    ensures l.sh.acct.known < cap + Times(top, most)
  {
    ChargesMonotone(most, l.concurrency, top);
    ChargesMonotone(most, 0, ActiveRequests(l));
  }

  lemma InnerKeepsReserve(l: Level, e: LevelEvent, rates: Rates, cap: real, most: real)
    requires LevelInv(l) && Allowed(l, e) && Reserved(l, cap, most) && 0.0 <= most
    requires l.sh.acct.rates == rates && ChargesAtMost(e, rates, most)
    ensures Reserved(Apply(l, e), cap, most)
    ensures Apply(l, e).sh.acct.rates == rates && Apply(l, e).concurrency == l.concurrency
  {
    ApplyKeepsReserve(l, e, cap, most);
    ApplyKeepsPrices(l, e);
    ApplyKeepsInv(l, e);
  }

  lemma StepKeepsRampReserve(r: Ramp, e: RampEvent, start: Evidence, rates: Rates, cap: real, most: real, top: nat)
    requires RampInv(r, start) && AllowedNow(r, e) && RampReserved(r, rates, cap, most, top) && 0.0 <= most
    requires e.Inner? ==> ChargesAtMost(e.event, rates, most)
    ensures RampReserved(ApplyRamp(r, e), rates, cap, most, top)
  {
    match e
    case EnterLevel =>
      if r.next < |r.levels| && !r.sh.acct.stopped {
        BeginReserves(r.sh, r.levels[r.next], r.spec, cap, most);
      }
    case Inner(event) =>
      assert InsideInv(r, r.stage.level);
      InnerKeepsReserve(r.stage.level, event, rates, cap, most);
    case LeaveLevel(callback, callbackStops) =>
      LeaveReserved(r.stage.level, cap, most, top);
      LeaveFacts(r, r.stage.level, callback, callbackStops);
  }

  lemma {:induction false} RunKeepsRampReserve(r: Ramp, es: seq<RampEvent>, q: Ramp, start: Evidence,
                                               rates: Rates, cap: real, most: real, top: nat)
    requires RampInv(r, start) && IsRampRun(r, es, q) && RampReserved(r, rates, cap, most, top) && 0.0 <= most
    requires CheapRun(es, rates, most)
    ensures RampReserved(q, rates, cap, most, top)
    decreases |es|
  {
    if es != [] {
      StepKeepsRampReserve(r, es[0], start, rates, cap, most, top);
      RampStepKeepsInv(r, es[0], start);
      assert CheapRun(es[1..], rates, most);
      RunKeepsRampReserve(ApplyRamp(r, es[0]), es[1..], q, start, rates, cap, most, top);
    }
  }

  /**
   * A fresh controller with a cap above zero, passed to a ramp whose largest level has `top` workers:
   * in every reachable state the known spend is below the cap plus `top` times the largest charge.
   */
  lemma RampSpendIsBounded(spec: SessionSpec, levels: seq<nat>, rates: Rates, cap: real, most: real, top: nat,
                           es: seq<RampEvent>, q: Ramp)
    requires ValidConfiguration(rates, Some(cap)) && 0.0 < cap && 0.0 <= most
    requires Ascending(levels) && forall j :: 0 <= j < |levels| ==> levels[j] <= top
    requires IsRampRun(StartRamp(spec, levels, Shared(Opened(rates, Some(cap)), NO_EVIDENCE, {}, true)), es, q)
    requires CheapRun(es, rates, most)
    ensures Now(q).acct.known < cap + most * top as real
  {
    var sh := Shared(Opened(rates, Some(cap)), NO_EVIDENCE, {}, true);
    var r := StartRamp(spec, levels, sh);
    StartsClean(spec, levels, rates, Some(cap));
    ChargesMonotone(most, 0, top);
    RunKeepsRampReserve(r, es, q, r.sh.ev, rates, cap, most, top);
    TimesIsProduct(top, most);
    if q.stage.Inside? {
      LeaveReserved(q.stage.level, cap, most, top);
    }
  }

  lemma StartsClean(spec: SessionSpec, levels: seq<nat>, rates: Rates, cap: Option<real>)
    requires ValidConfiguration(rates, cap) && Ascending(levels)
    ensures var r := StartRamp(spec, levels, Shared(Opened(rates, cap), NO_EVIDENCE, {}, true));
            RampInv(r, r.sh.ev)
  {
    var sh := Shared(Opened(rates, cap), NO_EVIDENCE, {}, true);
    OpenedIsBelowCap(rates, cap);
    assert SharedInv(sh, spec.maxAttempts);
    var r := StartRamp(spec, levels, sh);
    SharedStays(sh, r.sh, spec.maxAttempts);
    StartIsFine(spec, levels, r.sh);
  }

  lemma SharedAlways(r: Ramp, start: Evidence)
    requires RampInv(r, start)
    ensures SharedInv(Now(r), r.spec.maxAttempts)
  {
  }

  /**
   * In every reachable state of a ramp run with a fresh controller and fresh evidence: attempt
   * identities are distinct; every published session reads true against its own attempts; and as long
   * as no completion observer has raised, the published totals are the plain sums over the evidence.
   */
  lemma RampBooksBalance(spec: SessionSpec, levels: seq<nat>, rates: Rates, cap: Option<real>,
                         es: seq<RampEvent>, q: Ramp)
    requires ValidConfiguration(rates, cap) && Ascending(levels)
    requires IsRampRun(StartRamp(spec, levels, Shared(Opened(rates, cap), NO_EVIDENCE, {}, true)), es, q)
    ensures var sh := Now(q);
            && DistinctKeys(sh.ev.records)
            && SessionsSound(sh.ev.sessions, sh.ev.records, spec.maxAttempts)
            && (sh.quiet ==>
                  && sh.acct.known == TotalCost(sh.ev.records, sh.acct.rates)
                  && (TotalSpend(sh.acct).None? <==> IncompleteCostNote(sh.ev.records, sh.acct.rates).Some?)
                  && |sh.ev.records| == sh.acct.complete + sh.acct.partialUse + sh.acct.missing)
  {
    var r := StartRamp(spec, levels, Shared(Opened(rates, cap), NO_EVIDENCE, {}, true));
    StartsClean(spec, levels, rates, cap);
    RampRunKeepsInv(r, es, q, r.sh.ev);
    SharedAlways(q, r.sh.ev);
    if Now(q).quiet {
      AccountsMeansExactTotals(Now(q).acct, Now(q).ev.records);
    }
  }

  /** A cap of zero: the ramp is over as soon as it looks, with no attempt, record or session. */
  lemma ZeroCapRampDoesNothing(spec: SessionSpec, levels: seq<nat>, rates: Rates, es: seq<RampEvent>, q: Ramp)
    requires ValidConfiguration(rates, Some(0.0)) && Ascending(levels)
    requires IsRampRun(StartRamp(spec, levels, Shared(Opened(rates, Some(0.0)), NO_EVIDENCE, {}, true)), es, q)
    ensures |es| <= 1 && !q.stage.Inside?
    ensures q.sh.ev.attempts == map[] && q.sh.ev.records == [] && q.sh.ev.sessions == []
    ensures es != [] ==> q.sh.ev.status == if levels == [] then Completed else Stopped
  {
    assert |es| >= 1 ==> |es[1..]| == |es| - 1;
  }
}
