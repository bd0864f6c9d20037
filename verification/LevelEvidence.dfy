/** kneepoint/generator/lifecycle.py: the evidence and the accounting a level leaves, read off the events of its run. */
module LevelEvidence {
  import opened Basics
  import opened Records
  import opened Budget
  import opened Lifecycle
  import opened Session
  import opened Pool
  import opened LevelRuns

  /** The records of the requests that returned, over all workers, in order. */
  function Returns(es: seq<LevelEvent>): (rs: seq<RequestRecord>) {
    if es == [] then []
    else
      match es[|es| - 1]
      case Act(_, Receive(r, _, _), _) => Returns(es[..|es| - 1]) + [r]
      case _ => Returns(es[..|es| - 1])
  }

  /** The last event is the end of its worker's session. */
  predicate EndsSession(spec: SessionSpec, c: nat, es: seq<LevelEvent>, w: nat) {
    && es != [] && es[|es| - 1].Act? && es[|es| - 1].worker == w
    && LastStarted(es, w).Some? && SessionOf(spec, c, es, w).phase.Closed?
  }

  /** The sessions that ended, in order, as they ended. */
  function Ends(spec: SessionSpec, c: nat, es: seq<LevelEvent>): (sessions: seq<Sess>) {
    if es == [] then []
    else
      var before := Ends(spec, c, es[..|es| - 1]);
      match es[|es| - 1]
      case Act(w, _, _) => if EndsSession(spec, c, es, w) then before + [SessionOf(spec, c, es, w)] else before
      case _ => before
  }

  function FinalOf(error: Raised): (status: AttemptStatus) {
    Finished(if error == CancelledError then Cancelled else Failed)
  }

  /** The entry of the attempt the session stands at, after its event; every other entry stays. */
  function Written(attempts: map<AttemptKey, AttemptInfo>, c: nat, s: Sess, e: Event)
    : (after: map<AttemptKey, AttemptInfo>)
  {
    var key := AttemptKey(s.id, c, s.turn, s.attempt);
    match e
    case BeginAttempt(true, _, _) => attempts
    case BeginAttempt(false, Some(error), _) => attempts[key := AttemptInfo(FinalOf(error), false)]
    case BeginAttempt(false, None, true) => attempts[key := AttemptInfo(Finished(Stopped), false)]
    case BeginAttempt(false, None, false) => attempts[key := AttemptInfo(Starting, true)]
    case Receive(_, _, _) => attempts[key := AttemptInfo(Finished(Completed), true)]
    case Abort(error) => if s.phase.InFlight? then attempts[key := AttemptInfo(FinalOf(error), true)] else attempts
    case _ => attempts
  }

  function AttemptsAfter(base: map<AttemptKey, AttemptInfo>, spec: SessionSpec, c: nat, es: seq<LevelEvent>)
    : (attempts: map<AttemptKey, AttemptInfo>)
  {
    if es == [] then base
    else
      var earlier := es[..|es| - 1];
      var before := AttemptsAfter(base, spec, c, earlier);
      match es[|es| - 1]
      case Act(w, e, _) =>
        if LastStarted(earlier, w).Some? then Written(before, c, SessionOf(spec, c, earlier, w), e) else before
      case _ => before
  }

  function StartedIds(es: seq<LevelEvent>): (ids: set<string>) {
    if es == [] then {}
    else StartedIds(es[..|es| - 1]) + if es[|es| - 1].StartSession? then {es[|es| - 1].id} else {}
  }

  function StatusesAfter(base: map<string, RunStatus>, ends: seq<Sess>): (statuses: map<string, RunStatus>) {
    if ends == [] then base
    else
      var last := ends[|ends| - 1];
      StatusesAfter(base, ends[..|ends| - 1])[last.id := last.status]
  }

  function SessionsOf(ends: seq<Sess>): (sessions: seq<SessionRecord>) {
    seq(|ends|, k requires 0 <= k < |ends| => ends[k].Record())
  }

  /** The controller: stopped from outside or at an attempt, told of completions. */
  function AccountAfter(base: Account, es: seq<LevelEvent>): (account: Account) {
    if es == [] then base
    else
      var before := AccountAfter(base, es[..|es| - 1]);
      match es[|es| - 1]
      case SetStop => before.(stopped := true)
      case Act(_, BeginAttempt(false, _, true), _) => before.(stopped := true)
      case Act(_, Receive(r, _, _), true) => Observe(before, r).0
      case _ => before
  }

  predicate ObserverRaised(e: LevelEvent) {
    e.Act? && e.event.Receive? && e.event.observerRaises.Some?
  }

  // ----- one event

  /** What a level's own moves leave alone. */
  lemma MovesLeaveEvidence(l: Level, e: LevelEvent)
    requires Allowed(l, e) && !e.Act?
    ensures var sh := Apply(l, e).sh;
            && sh.ev.records == l.sh.ev.records && sh.ev.sessions == l.sh.ev.sessions
            && sh.ev.attempts == l.sh.ev.attempts && sh.ev.sessionStatus == l.sh.ev.sessionStatus
            && sh.acct == (if e.SetStop? then l.sh.acct.(stopped := true) else l.sh.acct)
            && sh.quiet == l.sh.quiet
            && sh.used == if e.StartSession? then l.sh.used + {e.id} else l.sh.used
  {
  }

  lemma TouchPublishes(spec: SessionSpec, s: Sess, e: Event, spendSeen: bool, sh: Shared)
    ensures var t, ev := Step(spec, s, e), Touch(spec, s, e, spendSeen, sh).ev;
            ev.sessionStatus == if t.phase.Closed? then sh.ev.sessionStatus[t.id := t.status] else sh.ev.sessionStatus
  {
  }

  lemma BegunWrites(ev: Evidence, key: AttemptKey, observerRaises: Option<Raised>, stopAfter: bool)
    ensures Begun(ev, key, observerRaises, stopAfter).attempts == ev.attempts[key :=
              if observerRaises.Some? then AttemptInfo(FinalOf(observerRaises.value), false)
              else if stopAfter then AttemptInfo(Finished(Stopped), false)
              else AttemptInfo(Starting, true)]
  {
  }

  lemma TouchWrites(spec: SessionSpec, c: nat, s: Sess, e: Event, spendSeen: bool, sh: Shared)
    requires Attached(spec, c, s, sh) && Legal(spec, s, e)
    ensures Touch(spec, s, e, spendSeen, sh).ev.attempts == Written(sh.ev.attempts, c, s, e)
  {
    if e.BeginAttempt? {
      BegunWrites(sh.ev, s.CurrentKey(), e.observerRaises, e.stopAfter);
    }
  }

  // ----- the whole run

  ghost predicate BooksRecorded(sh: Shared, es: seq<LevelEvent>, now: Shared) {
    && now.ev.records == sh.ev.records + Returns(es)
    && now.acct == AccountAfter(sh.acct, es)
    && now.used == sh.used + StartedIds(es)
    && (now.quiet <==> sh.quiet && forall k :: 0 <= k < |es| ==> !ObserverRaised(es[k]))
  }

  ghost predicate SessionsRecorded(sh: Shared, ends: seq<Sess>, now: Shared) {
    && now.ev.sessions == sh.ev.sessions + SessionsOf(ends)
    && now.ev.sessionStatus == StatusesAfter(sh.ev.sessionStatus, ends)
  }

  ghost predicate Recorded(sh: Shared, es: seq<LevelEvent>, m: Level) {
    && BooksRecorded(sh, es, m.sh)
    && SessionsRecorded(sh, Ends(m.spec, m.concurrency, es), m.sh)
    && m.sh.ev.attempts == AttemptsAfter(sh.ev.attempts, m.spec, m.concurrency, es)
  }

  lemma QuietSnoc(es: seq<LevelEvent>, e: LevelEvent)
    ensures (forall k :: 0 <= k < |es + [e]| ==> !ObserverRaised((es + [e])[k]))
            <==> !ObserverRaised(e) && forall k :: 0 <= k < |es| ==> !ObserverRaised(es[k])
  {
    assert (es + [e])[|es|] == e;
    assert forall k :: 0 <= k < |es| ==> (es + [e])[k] == es[k];
  }

  lemma MoveRecorded(sh: Shared, l: Level, es: seq<LevelEvent>, e: LevelEvent)
    requires Allowed(l, e) && !e.Act? && Recorded(sh, es, l)
    requires Apply(l, e).spec == l.spec && Apply(l, e).concurrency == l.concurrency
    ensures Recorded(sh, es + [e], Apply(l, e))
  {
    assert (es + [e])[..|es|] == es;
    MovesLeaveEvidence(l, e);
    QuietSnoc(es, e);
  }

  lemma ActSteps(spec: SessionSpec, c: nat, es: seq<LevelEvent>, e: LevelEvent)
    requires e.Act? && LastStarted(es, e.worker).Some?
    ensures LastStarted(es + [e], e.worker) == LastStarted(es, e.worker)
    ensures SessionOf(spec, c, es + [e], e.worker) == Step(spec, SessionOf(spec, c, es, e.worker), e.event)
  {
    assert (es + [e])[..|es|] == es;
    var acts := OwnActs(es, e.worker);
    assert OwnActs(es + [e], e.worker) == acts + [e.event] && (acts + [e.event])[..|acts|] == acts;
  }

  lemma PublishedSnoc(ends: seq<Sess>, t: Sess)
    ensures SessionsOf(ends + [t]) == SessionsOf(ends) + [t.Record()]
    ensures forall base :: StatusesAfter(base, ends + [t]) == StatusesAfter(base, ends)[t.id := t.status]
  {
    assert (ends + [t])[..|ends|] == ends;
  }

  lemma ActBooks(sh: Shared, es: seq<LevelEvent>, e: LevelEvent, spec: SessionSpec, s: Sess, now: Shared)
    requires e.Act? && BooksRecorded(sh, es, now)
    ensures BooksRecorded(sh, es + [e], Touch(spec, s, e.event, e.spendSeen, now))
  {
    assert (es + [e])[..|es|] == es;
    TouchRecords(spec, s, e.event, e.spendSeen, now);
    TouchAccount(spec, s, e.event, e.spendSeen, now);
    QuietSnoc(es, e);
  }

  lemma ActSessions(sh: Shared, ends: seq<Sess>, spec: SessionSpec, s: Sess, e: Event, spendSeen: bool, now: Shared)
    requires SessionsRecorded(sh, ends, now)
    ensures var t := Step(spec, s, e);
            SessionsRecorded(sh, if t.phase.Closed? then ends + [t] else ends, Touch(spec, s, e, spendSeen, now))
  {
    TouchRecords(spec, s, e, spendSeen, now);
    TouchPublishes(spec, s, e, spendSeen, now);
    PublishedSnoc(ends, Step(spec, s, e));
  }

  lemma ActRecorded(sh: Shared, l: Level, es: seq<LevelEvent>, e: LevelEvent)
    requires LevelInv(l) && Allowed(l, e) && e.Act? && Recorded(sh, es, l)
    requires LastStarted(es, e.worker).Some?
    requires l.workers[e.worker].place.sess == SessionOf(l.spec, l.concurrency, es, e.worker)
    ensures Recorded(sh, es + [e], Apply(l, e))
  {
    var s, spec, c := l.workers[e.worker].place.sess, l.spec, l.concurrency;
    assert Attached(spec, c, s, l.sh);
    ActBooks(sh, es, e, spec, s, l.sh);
    ActSessions(sh, Ends(spec, c, es), spec, s, e.event, e.spendSeen, l.sh);
    TouchWrites(spec, c, s, e.event, e.spendSeen, l.sh);
    ActSteps(spec, c, es, e);
    assert (es + [e])[..|es|] == es;
  }

  /**
   * What a level leaves behind, however it went: the records of all requests that returned, the sessions
   * that ended with their statuses, one entry for each attempt begun, the account of what was observed.
   */
  lemma {:induction false} EvidenceIsTheRun(sh: Shared, c: nat, spec: SessionSpec, es: seq<LevelEvent>, m: Level)
    requires SharedInv(sh, spec.maxAttempts) && IsRun(Begin(sh, c, spec), es, m)
    ensures Recorded(sh, es, m) && m.spec == spec && m.concurrency == c
    decreases |es|
  {
    BeginInv(sh, c, spec);
    if es != [] {
      var before, e := es[..|es| - 1], es[|es| - 1];
      var k := LastStep(Begin(sh, c, spec), es, m);
      assert es == before + [e];
      EvidenceIsTheRun(sh, c, spec, before, k);
      RunKeepsLevelInv(Begin(sh, c, spec), before, k);
      ApplyKeepsInv(k, e);
      if e.Act? {
        WorkersRunSessions(sh, c, spec, before, k, e.worker);
        PlaceTellsMore(k, before, e.worker);
        ActRecorded(sh, k, before, e);
      } else {
        MoveRecorded(sh, k, before, e);
      }
    }
  }
}
