/** kneepoint/generator/lifecycle.py: attempt identities and the caller-owned partial evidence. */
module Lifecycle {
  import opened Records
  import opened Text

  datatype AttemptInfo = AttemptInfo(status: AttemptStatus, dispatched: bool)

  datatype AttemptStatus = Starting | Finished(how: RunStatus)

  /** The dictionary key of an attempt. */
  function KeyText(k: AttemptKey): (s: string) {
    k.sessionId + ":" + Decimal(k.concurrency) + ":" + Decimal(k.turn) + ":" + Decimal(k.attempt)
  }

  /** Distinct identities never share a dictionary key, whatever the session id contains. */
  lemma KeyTextInjective(a: AttemptKey, b: AttemptKey)
    ensures KeyText(a) == KeyText(b) <==> a == b
  {
    if KeyText(a) == KeyText(b) {
      var x, x' := a.sessionId + ":" + Decimal(a.concurrency), b.sessionId + ":" + Decimal(b.concurrency);
      FieldJoins(x + ":" + Decimal(a.turn), a.attempt, x' + ":" + Decimal(b.turn), b.attempt);
      FieldJoins(x, a.turn, x', b.turn);
      FieldJoins(a.sessionId, a.concurrency, b.sessionId, b.concurrency);
    }
  }

  lemma FieldJoins(x: string, m: int, y: string, n: int)
    requires x + ":" + Decimal(m) == y + ":" + Decimal(n)
    ensures x == y && m == n
  {
    DecimalLacks(m, ':');
    DecimalLacks(n, ':');
    JoinAtLast(x, Decimal(m), y, Decimal(n), ':');
    DecimalRoundTrip(m);
    DecimalRoundTrip(n);
  }

  /** The evidence as a value. */
  datatype Evidence = Evidence(
    records: seq<RequestRecord>,
    sessions: seq<SessionRecord>,
    attempts: map<AttemptKey, AttemptInfo>,
    sessionStatus: map<string, RunStatus>,
    levelStatus: map<int, RunStatus>,
    status: RunStatus)

  const NO_EVIDENCE := Evidence([], [], map[], map[], map[], Running)

  function Start(ev: Evidence, k: AttemptKey): (evidence: Evidence) {
    ev.(attempts := ev.attempts[k := AttemptInfo(Starting, false)])
  }

  // The two updates below look the key up. The generator only passes keys it has started, which is an
  // invariant of the level machine; an unknown key leaves the evidence alone.

  function Dispatch(ev: Evidence, k: AttemptKey): (evidence: Evidence) {
    if k !in ev.attempts then ev
    else ev.(attempts := ev.attempts[k := ev.attempts[k].(dispatched := true)])
  }

  function FinishAttempt(ev: Evidence, k: AttemptKey, how: RunStatus): (evidence: Evidence) {
    if k !in ev.attempts then ev
    else ev.(attempts := ev.attempts[k := ev.attempts[k].(status := Finished(how))])
  }

  function AddRecord(ev: Evidence, r: RequestRecord): (evidence: Evidence) {
    ev.(records := ev.records + [r])
  }

  function AddSession(ev: Evidence, s: SessionRecord, how: RunStatus): (evidence: Evidence) {
    ev.(sessions := ev.sessions + [s], sessionStatus := ev.sessionStatus[s.sessionId := how])
  }

  function SetLevel(ev: Evidence, level: int, how: RunStatus): (evidence: Evidence) {
    ev.(status := how, levelStatus := ev.levelStatus[level := how])
  }

  /** The evidence object a caller keeps; `Value` is its content. */
  class RunEvidence {
    var records: seq<RequestRecord>
    var sessions: seq<SessionRecord>
    var attempts: map<AttemptKey, AttemptInfo>
    var sessionStatus: map<string, RunStatus>
    var levelStatus: map<int, RunStatus>
    var status: RunStatus

    ghost function Value(): (evidence: Evidence)
      reads this
    {
      Evidence(records, sessions, attempts, sessionStatus, levelStatus, status)
    }

    constructor ()
      ensures Value() == NO_EVIDENCE
    {
      records, sessions, attempts := [], [], map[];
      sessionStatus, levelStatus, status := map[], map[], Running;
    }

    /** Registering an attempt that was never registered leaves every other entry as it was. */
    method StartAttempt(k: AttemptKey)
      modifies this`attempts
      ensures Value() == Start(old(Value()), k)
    {
      attempts := attempts[k := AttemptInfo(Starting, false)];
    }

    /** The generator's own `attempts[key]["dispatched"] = True`. */
    method MarkDispatched(k: AttemptKey)
      requires k in attempts
      modifies this`attempts
      ensures Value() == Dispatch(old(Value()), k)
    {
      attempts := attempts[k := attempts[k].(dispatched := true)];
    }

    method Finish(k: AttemptKey, how: RunStatus)
      requires k in attempts
      modifies this`attempts
      ensures Value() == FinishAttempt(old(Value()), k, how)
    {
      attempts := attempts[k := attempts[k].(status := Finished(how))];
    }

    method Append(r: RequestRecord)
      modifies this`records
      ensures Value() == AddRecord(old(Value()), r)
    {
      records := records + [r];
    }

    method Publish(s: SessionRecord, how: RunStatus)
      modifies this`sessions, this`sessionStatus
      ensures Value() == AddSession(old(Value()), s, how)
    {
      sessions := sessions + [s];
      sessionStatus := sessionStatus[s.sessionId := how];
    }

    method Mark(level: int, how: RunStatus)
      modifies this`status, this`levelStatus
      ensures Value() == SetLevel(old(Value()), level, how)
    {
      status, levelStatus := how, levelStatus[level := how];
    }
  }
}
