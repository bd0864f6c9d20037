/** The quantitative promise of cooperative spend control over a level of N workers. */
module Spend {
  import opened Basics
  import opened Records
  import opened Cost
  import opened Budget
  import opened Session
  import opened Pool

  function HasActiveRequest(): (p: Worker -> bool) {
    (w: Worker) => w.place.Busy? && w.place.sess.phase.InFlight?
  }

  function ActiveRequests(l: Level): (n: nat) {
    Count(l.workers, HasActiveRequest())
  }

  /** No completed attempt of the event charges more than `most`. */
  ghost predicate ChargesAtMost(e: LevelEvent, rates: Rates, most: real) {
    e.Act? && e.event.Receive? ==> Charge(e.event.record, rates) <= most
  }

  lemma {:induction false} ChargesMonotone(most: real, m: nat, n: nat)
    requires 0.0 <= most && m <= n
    ensures 0.0 <= Times(m, most) <= Times(n, most)
  {
    if m < n {
      ChargesMonotone(most, m, n - 1);
    } else if m > 0 {
      ChargesMonotone(most, m - 1, n - 1);
    }
  }

  /** Requests that may still be charged are paid for in advance. */
  ghost predicate Reserved(l: Level, cap: real, most: real) {
    && l.sh.acct.cap == Some(cap)
    && l.sh.acct.known + Times(ActiveRequests(l), most) < cap + Times(l.concurrency, most)
  }

  lemma ActiveAfterAct(l: Level, i: nat, e: Event, spendSeen: bool)
    requires Allowed(l, Act(i, e, spendSeen))
    ensures ActiveRequests(ActOn(l, i, e, spendSeen))
         == ActiveRequests(l) - (if l.workers[i].place.sess.phase.InFlight? then 1 else 0)
                        + (if Step(l.spec, l.workers[i].place.sess, e).phase.InFlight? then 1 else 0)
  {
    var t := Step(l.spec, l.workers[i].place.sess, e);
    CountUpdate(l.workers, i, ActOn(l, i, e, spendSeen).workers[i], HasActiveRequest());
  }

  /** A request is dispatched only when the stop flag is down, and by a step that charges nothing. */
  lemma DispatchNeedsNoStop(l: Level, i: nat, e: Event, spendSeen: bool)
    requires Allowed(l, Act(i, e, spendSeen))
    requires Step(l.spec, l.workers[i].place.sess, e).phase.InFlight?
    ensures !l.sh.acct.stopped && e.BeginAttempt?
    ensures ActOn(l, i, e, spendSeen).sh.acct == l.sh.acct
    ensures !l.workers[i].place.sess.phase.InFlight?
  {
  }

  lemma ObserveChargesAtMost(a: Account, r: RequestRecord, most: real)
    requires Charge(r, a.rates) <= most && 0.0 <= most
    ensures Observe(a, r).0.known <= a.known + most
  {
  }

  lemma ActKeepsReserve(l: Level, i: nat, e: Event, spendSeen: bool, cap: real, most: real)
    requires LevelInv(l) && Allowed(l, Act(i, e, spendSeen)) && Reserved(l, cap, most) && 0.0 <= most
    requires ChargesAtMost(Act(i, e, spendSeen), l.sh.acct.rates, most)
    ensures Reserved(ActOn(l, i, e, spendSeen), cap, most)
  {
    var active := ActiveRequests(ActOn(l, i, e, spendSeen));
    TouchAccount(l.spec, l.workers[i].place.sess, e, spendSeen, l.sh);
    ActiveAfterAct(l, i, e, spendSeen);
    if e.Receive? {
      ReceiveSpends(l, i, e, spendSeen, most);
    } else if Step(l.spec, l.workers[i].place.sess, e).phase.InFlight? {
      DispatchNeedsNoStop(l, i, e, spendSeen);
      ChargesMonotone(most, active, l.concurrency);
    } else {
      ChargesMonotone(most, active, ActiveRequests(l));
    }
  }

  lemma ReceiveSpends(l: Level, i: nat, e: Event, spendSeen: bool, most: real)
    requires Allowed(l, Act(i, e, spendSeen)) && e.Receive? && 0.0 <= most
    requires Charge(e.record, l.sh.acct.rates) <= most
    ensures ActOn(l, i, e, spendSeen).sh.acct.known <= l.sh.acct.known + most
    ensures ActOn(l, i, e, spendSeen).sh.acct.cap == l.sh.acct.cap
    ensures ActiveRequests(ActOn(l, i, e, spendSeen)) + 1 == ActiveRequests(l)
  {
    TouchAccount(l.spec, l.workers[i].place.sess, e, spendSeen, l.sh);
    ActiveAfterAct(l, i, e, spendSeen);
    if spendSeen {
      ObserveChargesAtMost(l.sh.acct, e.record, most);
    }
  }

  lemma ApplyKeepsPrices(l: Level, e: LevelEvent)
    requires Allowed(l, e)
    ensures Apply(l, e).sh.acct.rates == l.sh.acct.rates && Apply(l, e).sh.acct.cap == l.sh.acct.cap
    ensures !e.Act? ==> Apply(l, e).sh.acct.known == l.sh.acct.known
  {
    if e.Act? {
      TouchAccount(l.spec, l.workers[e.worker].place.sess, e.event, e.spendSeen, l.sh);
    }
  }

  /** Events other than a session's step leave the requests in flight alone. */
  lemma OtherEventsKeepActive(l: Level, e: LevelEvent)
    requires Allowed(l, e) && !e.Act?
    ensures ActiveRequests(Apply(l, e)) == ActiveRequests(l)
  {
    match e
    case StartSession(i, _, _) => CountUpdate(l.workers, i, Apply(l, e).workers[i], HasActiveRequest());
    case Report(i, _, _) => CountUpdate(l.workers, i, Apply(l, e).workers[i], HasActiveRequest());
    case LeaveLoop(i) => CountUpdate(l.workers, i, Apply(l, e).workers[i], HasActiveRequest());
    case CancelIdle(i) => CountUpdate(l.workers, i, Apply(l, e).workers[i], HasActiveRequest());
    case _ =>
  }

  lemma ApplyKeepsReserve(l: Level, e: LevelEvent, cap: real, most: real)
    requires LevelInv(l) && Allowed(l, e) && Reserved(l, cap, most) && 0.0 <= most
    requires ChargesAtMost(e, l.sh.acct.rates, most)
    ensures Reserved(Apply(l, e), cap, most)
  {
    ApplyKeepsPrices(l, e);
    if e.Act? {
      ActKeepsReserve(l, e.worker, e.event, e.spendSeen, cap, most);
    } else {
      OtherEventsKeepActive(l, e);
      ApplyKeepsInv(l, e);
    }
  }

  lemma {:induction false} RunKeepsReserve(l: Level, es: seq<LevelEvent>, m: Level, cap: real, most: real)
    requires LevelInv(l) && IsRun(l, es, m) && Reserved(l, cap, most) && 0.0 <= most
    requires forall k :: 0 <= k < |es| ==> ChargesAtMost(es[k], l.sh.acct.rates, most)
    ensures Reserved(m, cap, most)
    decreases |es|
  {
    if es != [] {
      ApplyKeepsReserve(l, es[0], cap, most);
      ApplyKeepsPrices(l, es[0]);
      ApplyKeepsInv(l, es[0]);
      RunKeepsReserve(Apply(l, es[0]), es[1..], m, cap, most);
    }
  }

  lemma BeginReserves(sh: Shared, concurrency: nat, spec: SessionSpec, cap: real, most: real)
    requires SharedInv(sh, spec.maxAttempts) && sh.acct.cap == Some(cap) && 0.0 <= most && !sh.acct.stopped
    ensures Reserved(Begin(sh, concurrency, spec), cap, most)
  {
    var l := Begin(sh, concurrency, spec);
    forall w | w in l.workers
      ensures !HasActiveRequest()(w)
    {
      assert w == Worker(0, Idle);
    }
    CountZero(l.workers, HasActiveRequest());
    ChargesMonotone(most, 0, concurrency);
  }

  /**
   * In every reachable state of a level with N workers and a cap above zero, the known spend is below
   * the cap plus N times the largest charge, so the reported overshoot is at most N charges.
   */
  lemma KnownSpendIsBounded(sh: Shared, concurrency: nat, spec: SessionSpec, es: seq<LevelEvent>, m: Level,
                            cap: real, most: real)
    requires SharedInv(sh, spec.maxAttempts) && sh.acct.cap == Some(cap) && 0.0 <= most
    requires !sh.acct.stopped
    requires IsRun(Begin(sh, concurrency, spec), es, m)
    requires forall k :: 0 <= k < |es| ==> ChargesAtMost(es[k], sh.acct.rates, most)
    ensures m.sh.acct.known < cap + most * concurrency as real
    ensures KnownOvershoot(m.sh.acct).Some? && KnownOvershoot(m.sh.acct).value <= most * concurrency as real
  {
    var l := Begin(sh, concurrency, spec);
    BeginInv(sh, concurrency, spec);
    BeginReserves(sh, concurrency, spec, cap, most);
    RunKeepsReserve(l, es, m, cap, most);
    RunKeepsLevelInv(l, es, m);
    ChargesMonotone(most, 0, ActiveRequests(m));
    TimesIsProduct(concurrency, most);
    ChargesMonotone(most, 0, concurrency);
  }

  /** A level that begins with the stop set (a cap of zero sets it) ends at once and registers nothing. */
  lemma StoppedLevelDoesNothing(sh: Shared, concurrency: nat, spec: SessionSpec, es: seq<LevelEvent>, m: Level)
    requires sh.acct.stopped && IsRun(Begin(sh, concurrency, spec), es, m)
    ensures es == [] && m.main == Ended(Stopped, None) && m.workers == []
    ensures m.sh.ev.attempts == sh.ev.attempts && m.sh.ev.records == sh.ev.records
    ensures m.sh.ev.sessions == sh.ev.sessions
    ensures m.sh.acct == sh.acct
  {
  }

  /**
   * While no completion observer has raised, every completion the generator can deliver is charged
   * exactly once (or refused for negative counts): the replay and conflict branches are never taken.
   */
  lemma GeneratorNeverReplays(l: Level, i: nat, r: RequestRecord, text: string, observerRaises: Option<Raised>,
                              spendSeen: bool)
    requires LevelInv(l) && l.sh.quiet && Allowed(l, Act(i, Receive(r, text, observerRaises), spendSeen))
    ensures Observe(l.sh.acct, r).1 == if HasNegativeTokens(r) then Rejected(NegativeTokens) else Charged
  {
    CompletionIsCharged(l.spec, l.concurrency, l.workers[i].place.sess, r, l.sh);
  }

  /** How an account may change over a level: spend only grows, a stop and its first reason stay. */
  ghost predicate OnlyForward(a: Account, b: Account) {
    && b.rates == a.rates && b.cap == a.cap
    && a.known <= b.known
    && (a.stopped ==> b.stopped)
    && (a.reason.Some? ==> b.reason == a.reason)
  }

  lemma ObserveMovesForward(a: Account, r: RequestRecord)
    requires ValidConfiguration(a.rates, None)
    ensures OnlyForward(a, Observe(a, r).0)
  {
    if !HasNegativeTokens(r) {
      ChargeNonNegative(r, a.rates);
    }
  }

  lemma StepMovesForward(l: Level, e: LevelEvent)
    requires Allowed(l, e) && ValidConfiguration(l.sh.acct.rates, None)
    ensures OnlyForward(l.sh.acct, Apply(l, e).sh.acct)
  {
    if e.Act? {
      TouchAccount(l.spec, l.workers[e.worker].place.sess, e.event, e.spendSeen, l.sh);
      if e.event.Receive? {
        ObserveMovesForward(l.sh.acct, e.event.record);
      }
    }
  }

  /** Whatever the interleaving, no event of a level takes spend back, lifts a stop or rewrites its reason. */
  lemma {:induction false} SpendOnlyMovesForward(l: Level, es: seq<LevelEvent>, m: Level)
    requires IsRun(l, es, m) && ValidConfiguration(l.sh.acct.rates, None)
    ensures OnlyForward(l.sh.acct, m.sh.acct)
    decreases |es|
  {
    if es != [] {
      StepMovesForward(l, es[0]);
      SpendOnlyMovesForward(Apply(l, es[0]), es[1..], m);
    }
  }

  /** In every reachable state the published totals are plain sums over the evidence. */
  lemma BooksAgreeWithEvidence(sh: Shared, concurrency: nat, spec: SessionSpec, es: seq<LevelEvent>, m: Level)
    requires SharedInv(sh, spec.maxAttempts) && IsRun(Begin(sh, concurrency, spec), es, m) && m.sh.quiet
    ensures m.sh.acct.known == TotalCost(m.sh.ev.records, m.sh.acct.rates)
    ensures TotalSpend(m.sh.acct).None? <==> IncompleteCostNote(m.sh.ev.records, m.sh.acct.rates).Some?
    ensures |m.sh.ev.records| == |m.sh.acct.seen|
         == m.sh.acct.complete + m.sh.acct.partialUse + m.sh.acct.missing
    ensures DistinctKeys(m.sh.ev.records)
  {
    BeginInv(sh, concurrency, spec);
    RunKeepsLevelInv(Begin(sh, concurrency, spec), es, m);
    AccountsMeansExactTotals(m.sh.acct, m.sh.ev.records);
  }

  /** In every reachable state every published session reads true against its recorded attempts. */
  lemma PublishedSessionsAreSound(sh: Shared, concurrency: nat, spec: SessionSpec, es: seq<LevelEvent>,
                                  m: Level, k: nat)
    requires SharedInv(sh, spec.maxAttempts) && IsRun(Begin(sh, concurrency, spec), es, m)
    requires k < |m.sh.ev.sessions|
    ensures var x := m.sh.ev.sessions[k];
            Sound(x, Filter(m.sh.ev.records, OfSession(x.sessionId)), spec.maxAttempts)
  {
    BeginInv(sh, concurrency, spec);
    RunKeepsLevelInv(Begin(sh, concurrency, spec), es, m);
  }
}
