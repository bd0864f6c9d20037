/** What a level adds to the evidence: its own records and sessions, counted, with bounded retries. */
module Progress {
  import opened Basics
  import opened Records
  import opened Lifecycle
  import opened Session
  import opened Pool

  /** `now` extends `before` by records and sessions of level `c` only. */
  ghost predicate Extends(before: Evidence, now: Evidence, c: int) {
    && |before.records| <= |now.records| && now.records[..|before.records|] == before.records
    && (forall i :: |before.records| <= i < |now.records| ==> now.records[i].concurrency == c)
    && |before.sessions| <= |now.sessions| && now.sessions[..|before.sessions|] == before.sessions
    && (forall i :: |before.sessions| <= i < |now.sessions| ==> now.sessions[i].concurrency == c)
    && (forall k :: k != c ==> (k in now.levelStatus <==> k in before.levelStatus)
                               && (k in before.levelStatus ==> now.levelStatus[k] == before.levelStatus[k]))
  }

  /** Another record and another session of level `c` at most. */
  ghost predicate Adds(ev: Evidence, now: Evidence, c: int) {
    && (now.records == ev.records || (exists r :: now.records == ev.records + [r] && r.concurrency == c))
    && (now.sessions == ev.sessions || (exists s :: now.sessions == ev.sessions + [s] && s.concurrency == c))
    && now.levelStatus == ev.levelStatus
  }

  lemma ExtendsFurther(before: Evidence, ev: Evidence, now: Evidence, c: int)
    requires Extends(before, ev, c) && Adds(ev, now, c)
    ensures Extends(before, now, c)
  {
  }

  lemma TouchAdds(spec: SessionSpec, s: Sess, e: Event, spendSeen: bool, sh: Shared)
    requires Legal(spec, s, e)
    ensures Adds(sh.ev, Touch(spec, s, e, spendSeen, sh).ev, s.concurrency)
  {
    TouchRecords(spec, s, e, spendSeen, sh);
    StepRecords(spec, s, e);
    if e.Receive? {
      assert e.record.Key() == s.CurrentKey();
    }
  }

  lemma TouchExtends(l: Level, i: nat, e: Event, spendSeen: bool, before: Evidence)
    requires LevelInv(l) && Allowed(l, Act(i, e, spendSeen)) && Extends(before, l.sh.ev, l.concurrency)
    ensures Extends(before, ActOn(l, i, e, spendSeen).sh.ev, l.concurrency)
  {
    var s := l.workers[i].place.sess;
    assert Attached(l.spec, l.concurrency, s, l.sh);
    TouchAdds(l.spec, s, e, spendSeen, l.sh);
    ExtendsFurther(before, l.sh.ev, ActOn(l, i, e, spendSeen).sh.ev, l.concurrency);
  }

  // ----- sessions finished by each worker

  function SessionsDone(): (f: Worker -> int) {
    (w: Worker) => w.sessions
  }

  /** Every worker that has left its loop without a stop has finished a session. */
  ghost predicate NoEarlyReturn(l: Level) {
    !l.sh.acct.stopped ==>
      forall i :: 0 <= i < |l.workers| && (l.workers[i].place.Returned? || l.workers[i].place.After?) ==>
        l.workers[i].sessions >= 1
  }

  ghost predicate SessionsCounted(l: Level, before: Evidence) {
    SumInt(l.workers, SessionsDone()) == |l.sh.ev.sessions| - |before.sessions|
  }

  lemma ActKeepsSessions(l: Level, i: nat, e: Event, spendSeen: bool, before: Evidence)
    requires Allowed(l, Act(i, e, spendSeen)) && SessionsCounted(l, before) && NoEarlyReturn(l)
    ensures SessionsCounted(ActOn(l, i, e, spendSeen), before) && NoEarlyReturn(ActOn(l, i, e, spendSeen))
  {
    var s := l.workers[i].place.sess;
    TouchRecords(l.spec, s, e, spendSeen, l.sh);
    TouchAccount(l.spec, s, e, spendSeen, l.sh);
    StopIsSticky(l, i, e, spendSeen);
    SumIntUpdate(l.workers, i, ActOn(l, i, e, spendSeen).workers[i], SessionsDone());
  }

  lemma StopIsSticky(l: Level, i: nat, e: Event, spendSeen: bool)
    requires Allowed(l, Act(i, e, spendSeen))
    ensures l.sh.acct.stopped ==> ActOn(l, i, e, spendSeen).sh.acct.stopped
  {
    TouchAccount(l.spec, l.workers[i].place.sess, e, spendSeen, l.sh);
  }

  // ----- retries

  /** Attempts a session may still add to a turn whose first attempt is already recorded. */
  function Owed(maxAttempts: int, s: Sess): (n: int) {
    if s.phase.RetryWait? then maxAttempts - s.attempt
    else if (s.phase.AttemptTop? || s.phase.InFlight?) && s.attempt > 1 then maxAttempts - s.attempt + 1
    else 0
  }

  function Slack(maxAttempts: int): (f: Worker -> int) {
    (w: Worker) => if w.place.Busy? then Owed(maxAttempts, w.place.sess) else 0
  }

  /** Requests recorded, plus those the open turns may still add, are paid for by first attempts. */
  ghost predicate RetriesPaid(l: Level) {
    PaidFor(l.spec.maxAttempts, Count(l.sh.ev.records, OfLevel(l.concurrency)),
         Count(l.sh.ev.records, FirstOfLevel(l.concurrency)), SumInt(l.workers, Slack(l.spec.maxAttempts)))
  }

  predicate PaidFor(max: int, requests: nat, firsts: nat, owed: int) {
    requests + owed <= max * firsts
  }

  lemma OwedAfterStep(spec: SessionSpec, s: Sess, e: Event)
    requires Position(spec, s) && !s.phase.Closed? && Legal(spec, s, e)
    ensures var t := Step(spec, s, e);
            var after := if t.phase.Closed? then 0 else Owed(spec.maxAttempts, t);
            && (!e.Receive? ==> after <= Owed(spec.maxAttempts, s))
            && (e.Receive? && e.record.attempt == 1 ==>
                  Owed(spec.maxAttempts, s) == 0 && after <= spec.maxAttempts - 1)
            && (e.Receive? && e.record.attempt != 1 ==> after + 1 <= Owed(spec.maxAttempts, s))
  {
    if e.Receive? {
      assert e.record.Key() == s.CurrentKey();
    }
  }

  lemma SlackAfterAct(l: Level, i: nat, e: Event, spendSeen: bool)
    requires LevelInv(l) && Allowed(l, Act(i, e, spendSeen))
    ensures var w, w' := l.workers[i], ActOn(l, i, e, spendSeen).workers[i];
            var slack := Slack(l.spec.maxAttempts);
            && (!e.Receive? ==> slack(w') <= slack(w))
            && (e.Receive? && e.record.attempt == 1 ==> slack(w) == 0 && slack(w') <= l.spec.maxAttempts - 1)
            && (e.Receive? && e.record.attempt != 1 ==> slack(w') + 1 <= slack(w))
  {
    assert Attached(l.spec, l.concurrency, l.workers[i].place.sess, l.sh);
    OwedAfterStep(l.spec, l.workers[i].place.sess, e);
  }

  lemma ReceiveCounts(l: Level, i: nat, e: Event, spendSeen: bool)
    requires LevelInv(l) && Allowed(l, Act(i, e, spendSeen)) && e.Receive?
    ensures var before, after := l.sh.ev.records, ActOn(l, i, e, spendSeen).sh.ev.records;
            && Count(after, OfLevel(l.concurrency)) == Count(before, OfLevel(l.concurrency)) + 1
            && Count(after, FirstOfLevel(l.concurrency))
               == Count(before, FirstOfLevel(l.concurrency)) + if e.record.attempt == 1 then 1 else 0
  {
    var s := l.workers[i].place.sess;
    TouchRecords(l.spec, s, e, spendSeen, l.sh);
    assert e.record.Key() == s.CurrentKey() && s.concurrency == l.concurrency;
    CountSnoc(l.sh.ev.records, e.record, OfLevel(l.concurrency));
    CountSnoc(l.sh.ev.records, e.record, FirstOfLevel(l.concurrency));
  }

  /** One worker's move on the books: `w` and `w'` are what it owes before and after. */
  lemma StillPaid(max: int, requests: nat, firsts: nat, owed: int, w: int, w': int, received: bool, first: bool)
    requires PaidFor(max, requests, firsts, owed)
    requires !received ==> w' <= w
    requires received && first ==> w == 0 && w' <= max - 1
    requires received && !first ==> w' + 1 <= w
    ensures PaidFor(max, requests + (if received then 1 else 0), firsts + (if received && first then 1 else 0),
                 owed - w + w')
  {
    assert max * (firsts + 1) == max * firsts + max;
  }

  /** One record more at most; `m` is what becomes of `l` when worker `i` moves. */
  ghost predicate CountsMove(l: Level, m: Level, i: nat, received: bool, first: bool) {
    && m.concurrency == l.concurrency && m.spec == l.spec
    && i < |l.workers| == |m.workers| && m.workers == l.workers[i := m.workers[i]]
    && Count(m.sh.ev.records, OfLevel(l.concurrency))
       == Count(l.sh.ev.records, OfLevel(l.concurrency)) + (if received then 1 else 0)
    && Count(m.sh.ev.records, FirstOfLevel(l.concurrency))
       == Count(l.sh.ev.records, FirstOfLevel(l.concurrency)) + (if received && first then 1 else 0)
  }

  lemma ActCountsMove(l: Level, i: nat, e: Event, spendSeen: bool)
    requires LevelInv(l) && Allowed(l, Act(i, e, spendSeen))
    ensures CountsMove(l, ActOn(l, i, e, spendSeen), i, e.Receive?, e.Receive? && e.record.attempt == 1)
  {
    if e.Receive? {
      ReceiveCounts(l, i, e, spendSeen);
    } else {
      TouchRecords(l.spec, l.workers[i].place.sess, e, spendSeen, l.sh);
    }
  }

  lemma MoveStaysPaid(l: Level, m: Level, i: nat, received: bool, first: bool)
    requires RetriesPaid(l) && CountsMove(l, m, i, received, first)
    requires var w, w' := Slack(l.spec.maxAttempts)(l.workers[i]), Slack(l.spec.maxAttempts)(m.workers[i]);
             && (!received ==> w' <= w)
             && (received && first ==> w == 0 && w' <= l.spec.maxAttempts - 1)
             && (received && !first ==> w' + 1 <= w)
    ensures RetriesPaid(m)
  {
    var slack := Slack(l.spec.maxAttempts);
    SumIntUpdate(l.workers, i, m.workers[i], slack);
    StillPaid(l.spec.maxAttempts, Count(l.sh.ev.records, OfLevel(l.concurrency)),
              Count(l.sh.ev.records, FirstOfLevel(l.concurrency)), SumInt(l.workers, slack),
              slack(l.workers[i]), slack(m.workers[i]), received, first);
  }

  lemma ActKeepsRetriesPaid(l: Level, i: nat, e: Event, spendSeen: bool)
    requires LevelInv(l) && Allowed(l, Act(i, e, spendSeen)) && RetriesPaid(l)
    ensures RetriesPaid(ActOn(l, i, e, spendSeen))
  {
    SlackAfterAct(l, i, e, spendSeen);
    ActCountsMove(l, i, e, spendSeen);
    MoveStaysPaid(l, ActOn(l, i, e, spendSeen), i, e.Receive?, e.Receive? && e.record.attempt == 1);
  }

  // ----- all of it, over any run of a level

  ghost predicate Progressing(l: Level, before: Evidence) {
    && Extends(before, l.sh.ev, l.concurrency)
    && SessionsCounted(l, before)
    && NoEarlyReturn(l)
    && RetriesPaid(l)
  }

  lemma MoveKeepsProgress(l: Level, e: LevelEvent, before: Evidence)
    requires LevelInv(l) && Allowed(l, e) && Progressing(l, before)
    requires e.StartSession? || e.Report? || e.LeaveLoop? || e.CancelIdle?
    ensures Progressing(Apply(l, e), before)
  {
    var m := Apply(l, e);
    SumIntUpdate(l.workers, e.worker, m.workers[e.worker], SessionsDone());
    SumIntUpdate(l.workers, e.worker, m.workers[e.worker], Slack(l.spec.maxAttempts));
  }

  lemma ActKeepsProgress(l: Level, i: nat, e: Event, spendSeen: bool, before: Evidence)
    requires LevelInv(l) && Allowed(l, Act(i, e, spendSeen)) && Progressing(l, before)
    ensures Progressing(ActOn(l, i, e, spendSeen), before)
  {
    TouchExtends(l, i, e, spendSeen, before);
    ActKeepsSessions(l, i, e, spendSeen, before);
    ActKeepsRetriesPaid(l, i, e, spendSeen);
  }

  /** `m` has the workers and the evidence of `l`, but for the status of the level itself. */
  ghost predicate SameWork(l: Level, m: Level) {
    && m.concurrency == l.concurrency && m.spec == l.spec && m.workers == l.workers
    && m.sh.ev.records == l.sh.ev.records && m.sh.ev.sessions == l.sh.ev.sessions
    && (l.sh.acct.stopped ==> m.sh.acct.stopped)
    && (forall k :: k != l.concurrency ==>
          (k in m.sh.ev.levelStatus <==> k in l.sh.ev.levelStatus)
          && (k in l.sh.ev.levelStatus ==> m.sh.ev.levelStatus[k] == l.sh.ev.levelStatus[k]))
  }

  /** Stopping, failing, cancelling and joining leave records, sessions and workers alone. */
  lemma RestIsSameWork(l: Level, e: LevelEvent)
    requires Allowed(l, e) && (e.SetStop? || e.ChildFailed? || e.CancelLevel? || e.Join?)
    ensures SameWork(l, Apply(l, e))
  {
  }

  lemma SameWorkKeepsProgress(l: Level, m: Level, before: Evidence)
    requires SameWork(l, m) && Progressing(l, before)
    ensures Progressing(m, before)
  {
  }

  lemma ApplyKeepsProgress(l: Level, e: LevelEvent, before: Evidence)
    requires LevelInv(l) && Allowed(l, e) && Progressing(l, before)
    ensures Progressing(Apply(l, e), before)
  {
    match e
    case Act(i, event, spendSeen) => ActKeepsProgress(l, i, event, spendSeen, before);
    case StartSession(_, _, _) => MoveKeepsProgress(l, e, before);
    case Report(_, _, _) => MoveKeepsProgress(l, e, before);
    case LeaveLoop(_) => MoveKeepsProgress(l, e, before);
    case CancelIdle(_) => MoveKeepsProgress(l, e, before);
    case _ =>
      RestIsSameWork(l, e);
      SameWorkKeepsProgress(l, Apply(l, e), before);
  }

  lemma BeginProgress(sh: Shared, concurrency: nat, spec: SessionSpec)
    requires forall r :: r in sh.ev.records ==> r.concurrency != concurrency
    ensures Progressing(Begin(sh, concurrency, spec), sh.ev)
  {
    var l := Begin(sh, concurrency, spec);
    CountZero(sh.ev.records, OfLevel(concurrency));
    CountZero(sh.ev.records, FirstOfLevel(concurrency));
    assert l.sh.ev.records == sh.ev.records;
    IdleSums(l.workers, spec.maxAttempts);
  }

  lemma {:induction false} IdleSums(ws: seq<Worker>, maxAttempts: int)
    requires forall i :: 0 <= i < |ws| ==> ws[i] == Worker(0, Idle)
    ensures SumInt(ws, SessionsDone()) == 0 && SumInt(ws, Slack(maxAttempts)) == 0
  {
    if ws != [] {
      IdleSums(ws[..|ws| - 1], maxAttempts);
    }
  }

  lemma {:induction false} SlackNonNegative(l: Level)
    requires LevelInv(l)
    ensures SumInt(l.workers, Slack(l.spec.maxAttempts)) >= 0
  {
    forall i | 0 <= i < |l.workers|
      ensures Slack(l.spec.maxAttempts)(l.workers[i]) >= 0
    {
      if l.workers[i].place.Busy? {
        assert Position(l.spec, l.workers[i].place.sess);
      }
    }
    SumIntBound(l.workers, Slack(l.spec.maxAttempts), 0);
  }

  /** When a level ends as completed, each of its workers has finished a session, and all are in the evidence. */
  lemma CompletedHasSessions(l: Level, e: LevelEvent, before: Evidence)
    requires LevelInv(l) && Allowed(l, e) && e.Join? && Progressing(l, before)
    requires Apply(l, e).main == Ended(Completed, None)
    ensures |l.workers| == l.concurrency && forall i :: 0 <= i < |l.workers| ==> l.workers[i].sessions >= 1
    ensures SumInt(l.workers, SessionsDone()) == |l.sh.ev.sessions| - |before.sessions|
    ensures |l.sh.ev.sessions| - |before.sessions| >= l.concurrency
  {
    SumIntBound(l.workers, SessionsDone(), 1);
  }
}
