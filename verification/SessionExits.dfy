/** kneepoint/generator/session.py: a finished session, read off the events of its run alone. */
module SessionExits {
  import opened Basics
  import opened Records
  import opened Session

  function Says(e: Event): (ms: seq<Message>) {
    match e
    case OpenTurn(false, Some(prompt)) => [Message(User, prompt)]
    case Receive(r, text, _) => if r.ok then [Message(Assistant, text)] else []
    case _ => []
  }

  /** What was said, in order: the prompt of each opened turn, the text of each ok answer. */
  function Said(es: seq<Event>): (ms: seq<Message>) {
    if es == [] then [] else Said(es[..|es| - 1]) + Says(es[|es| - 1])
  }

  /** The records of the requests that returned. */
  function Received(es: seq<Event>): (rs: seq<RequestRecord>) {
    if es == [] then []
    else if es[|es| - 1].Receive? then Received(es[..|es| - 1]) + [es[|es| - 1].record]
    else Received(es[..|es| - 1])
  }

  predicate SawStop(e: Event) {
    match e
    case OpenTurn(stopSeen, _) => stopSeen
    case BeginAttempt(stopBefore, observerRaises, stopAfter) => stopBefore || (observerRaises.None? && stopAfter)
    case _ => false
  }

  ghost predicate StopWasSeen(es: seq<Event>) {
    exists i :: 0 <= i < |es| && SawStop(es[i])
  }

  /** The exception the last event raises: from the sampler, an observer, the request or a wait, the draw. */
  function RaisedLast(spec: SessionSpec, nTurns: nat, es: seq<Event>): (raised: Option<Raised>)
    requires es != []
  {
    match es[|es| - 1]
    case OpenTurn(stopSeen, prompt) => if !stopSeen && prompt.None? then Some(OtherError) else None
    case BeginAttempt(stopBefore, observerRaises, _) => if stopBefore then None else observerRaises
    case Receive(_, _, observerRaises) => observerRaises
    case Abort(error) => Some(error)
    case Wake => None
    case EndTurn(drawRaises) =>
      if drawRaises && spec.thinkMaxMs > 0 && Count(Received(es), IsOk()) < nTurns
         && Said(es) != [] && Said(es)[|Said(es)| - 1].role.Assistant?
      then Some(OtherError)
      else None
  }

  /** The last attempt failed for good: no attempts left, or a status outside the four worth another try. */
  predicate GaveUp(rs: seq<RequestRecord>, maxAttempts: int) {
    && rs != []
    && var last := rs[|rs| - 1];
       && !last.ok
       && (last.attempt == maxAttempts || (last.statusCode.Some? && last.statusCode.value !in {429, 500, 502, 503}))
  }

  // ----- the records and the transcript

  ghost predicate Told(s: Sess, es: seq<Event>) {
    && s.records == Received(es)
    && (if s.phase.Closed? then 2 * s.completed <= |Said(es)| && s.messages == Said(es)[..2 * s.completed]
        else s.messages == Said(es))
  }

  /** A step adds what its event says; only the end of the session takes an unanswered prompt back. */
  lemma StepSays(spec: SessionSpec, s: Sess, e: Event)
    requires Legal(spec, s, e) && Position(spec, s) && !s.phase.Closed?
    ensures var t := Step(spec, s, e);
            t.messages <= s.messages + Says(e) && (!t.phase.Closed? ==> t.messages == s.messages + Says(e))
  {
  }

  lemma StepTells(spec: SessionSpec, s: Sess, es: seq<Event>, e: Event)
    requires Position(spec, s) && TranscriptMatches(s.messages, s.completed, AwaitingAnswer(s))
    requires Legal(spec, s, e) && Told(s, es)
    ensures Told(Step(spec, s, e), es + [e])
  {
    assert (es + [e])[..|es|] == es;
    StepSays(spec, s, e);
    StepRecords(spec, s, e);
    StepKeepsTranscript(spec, s, e);
  }

  lemma {:induction false} RunTells(spec: SessionSpec, id: string, concurrency: int, nTurns: nat, es: seq<Event>)
    requires 1 <= nTurns && LegalRun(spec, Fresh(id, concurrency, nTurns), es)
    ensures Told(Run(spec, Fresh(id, concurrency, nTurns), es), es)
    ensures Inv(spec, Run(spec, Fresh(id, concurrency, nTurns), es))
  {
    var s := Fresh(id, concurrency, nTurns);
    FreshInv(spec, id, concurrency, nTurns);
    RunKeepsInv(spec, s, es);
    if es != [] {
      var before, e := es[..|es| - 1], es[|es| - 1];
      RunKeepsInv(spec, s, before);
      RunTells(spec, id, concurrency, nTurns, before);
      StepTells(spec, Run(spec, s, before), before, e);
      assert es == before + [e];
    }
  }

  /**
   * However a session ends, it publishes the records of the requests that returned, a transcript that is
   * what was said up to the last answer, one completed turn for each ok answer, and the named faults.
   */
  lemma TranscriptIsWhatWasSaid(spec: SessionSpec, id: string, concurrency: int, nTurns: nat, es: seq<Event>)
    requires 1 <= nTurns && LegalRun(spec, Fresh(id, concurrency, nTurns), es)
    requires Run(spec, Fresh(id, concurrency, nTurns), es).phase.Closed?
    ensures var s := Run(spec, Fresh(id, concurrency, nTurns), es);
            var answered := Count(Received(es), IsOk());
            && s.records == Received(es)
            && 2 * answered <= |Said(es)|
            && s.Record() == SessionRecord(id, concurrency, nTurns, answered, answered == nTurns,
                                           FaultsOf(Received(es)), Said(es)[..2 * answered])
  {
    RunTells(spec, id, concurrency, nTurns, es);
    RunKeepsInv(spec, Fresh(id, concurrency, nTurns), es);
  }

  // ----- why it ended

  /** The exception of the state is that of the last event. */
  ghost predicate RaiseExplained(spec: SessionSpec, s: Sess, es: seq<Event>) {
    es != [] ==> RaisedLast(spec, s.nTurns, es) == if s.phase.Closed? then s.phase.raised else None
  }

  ghost predicate StatusExplained(s: Sess, es: seq<Event>) {
    && (s.phase.Closed? && s.phase.raised.Some? ==>
          s.status == if s.phase.raised == Some(CancelledError) then Cancelled else Failed)
    && (!s.phase.Closed? || s.phase.raised.None? ==>
          s.status == if StopWasSeen(es) then Stopped else Completed)
    && (!s.phase.Closed? && s.status == Stopped ==> s.phase.TurnEnd? && s.accepted.None?)
  }

  lemma StopSnoc(es: seq<Event>, e: Event)
    ensures StopWasSeen(es + [e]) <==> StopWasSeen(es) || SawStop(e)
  {
    if StopWasSeen(es) {
      var i :| 0 <= i < |es| && SawStop(es[i]);
      assert SawStop((es + [e])[i]);
    }
    assert (es + [e])[|es|] == e;
  }

  lemma StepExplainsStatus(spec: SessionSpec, s: Sess, es: seq<Event>, e: Event)
    requires Position(spec, s) && Legal(spec, s, e) && StatusExplained(s, es)
    ensures StatusExplained(Step(spec, s, e), es + [e])
  {
    StopSnoc(es, e);
  }

  /** The think time is drawn exactly after an answer that was not the last one asked for. */
  lemma DrawFollowsAnswer(spec: SessionSpec, s: Sess, e: Event)
    requires Position(spec, s) && Legal(spec, s, e) && e.EndTurn?
    requires TranscriptMatches(s.messages, s.completed, AwaitingAnswer(s))
    ensures var t := Step(spec, s, e);
            t.phase == Closed(Some(OtherError)) <==>
              e.drawRaises && spec.thinkMaxMs > 0 && s.completed < s.nTurns
              && s.messages != [] && s.messages[|s.messages| - 1].role.Assistant?
    ensures Step(spec, s, e).phase.Closed? ==> Step(spec, s, e).phase.raised in {None, Some(OtherError)}
  {
  }

  lemma StepExplainsRaise(spec: SessionSpec, s: Sess, es: seq<Event>, e: Event)
    requires Position(spec, s) && Legal(spec, s, e) && Told(s, es) && s.completed == Count(s.records, IsOk())
    requires TranscriptMatches(s.messages, s.completed, AwaitingAnswer(s))
    ensures RaiseExplained(spec, Step(spec, s, e), es + [e])
  {
    assert (es + [e])[..|es|] == es;
    if e.EndTurn? {
      DrawFollowsAnswer(spec, s, e);
      assert s.messages == Said(es + [e]) && s.records == Received(es + [e]);
    }
  }

  lemma {:induction false} RunExplains(spec: SessionSpec, id: string, concurrency: int, nTurns: nat, es: seq<Event>)
    requires 1 <= nTurns && LegalRun(spec, Fresh(id, concurrency, nTurns), es)
    ensures var s := Run(spec, Fresh(id, concurrency, nTurns), es);
            s.nTurns == nTurns && RaiseExplained(spec, s, es) && StatusExplained(s, es)
  {
    var s := Fresh(id, concurrency, nTurns);
    if es != [] {
      var before, e := es[..|es| - 1], es[|es| - 1];
      var t := Run(spec, s, before);
      assert es == before + [e];
      RunExplains(spec, id, concurrency, nTurns, before);
      RunTells(spec, id, concurrency, nTurns, before);
      StepRecords(spec, t, e);
      StepExplainsStatus(spec, t, before, e);
      StepExplainsRaise(spec, t, before, e);
    }
  }

  lemma NothingRaisedBefore(spec: SessionSpec, id: string, concurrency: int, nTurns: nat, es: seq<Event>, k: nat)
    requires 1 <= nTurns && LegalRun(spec, Fresh(id, concurrency, nTurns), es) && 0 < k < |es|
    ensures RaisedLast(spec, nTurns, es[..k]).None?
  {
    PrefixIsLegal(spec, Fresh(id, concurrency, nTurns), es, k);
    RunExplains(spec, id, concurrency, nTurns, es[..k]);
    assert !Run(spec, Fresh(id, concurrency, nTurns), es[..k]).phase.Closed?;
  }

  /**
   * A session raises exactly what its last event raised, and no earlier event raised anything. It is
   * cancelled or failed exactly then; otherwise stopped if it ever saw the stop, else completed.
   */
  lemma ExitFollowsTheEvents(spec: SessionSpec, id: string, concurrency: int, nTurns: nat, es: seq<Event>)
    requires 1 <= nTurns && LegalRun(spec, Fresh(id, concurrency, nTurns), es)
    requires Run(spec, Fresh(id, concurrency, nTurns), es).phase.Closed?
    ensures es != []
    ensures var s := Run(spec, Fresh(id, concurrency, nTurns), es);
            && s.phase.raised == RaisedLast(spec, nTurns, es)
            && s.status == match s.phase.raised
                           case Some(CancelledError) => Cancelled
                           case Some(_) => Failed
                           case None => if StopWasSeen(es) then Stopped else Completed
    ensures forall k :: 0 < k < |es| ==> RaisedLast(spec, nTurns, es[..k]).None?
  {
    RunExplains(spec, id, concurrency, nTurns, es);
    forall k | 0 < k < |es|
      ensures RaisedLast(spec, nTurns, es[..k]).None?
    {
      NothingRaisedBefore(spec, id, concurrency, nTurns, es, k);
    }
  }

  // ----- a retryable failure is retried

  ghost predicate Insists(spec: SessionSpec, s: Sess) {
    && (s.phase.TurnEnd? && s.accepted.None? && s.status == Completed ==> GaveUp(s.records, spec.maxAttempts))
    && (s.phase == Closed(None) && s.status == Completed ==>
          s.completed == s.nTurns || GaveUp(s.records, spec.maxAttempts))
  }

  lemma StepInsists(spec: SessionSpec, s: Sess, e: Event)
    requires 1 <= spec.maxAttempts && Inv(spec, s) && Legal(spec, s, e) && Insists(spec, s)
    ensures Insists(spec, Step(spec, s, e))
  {
    if e.Receive? {
      assert e.record.Key() == s.CurrentKey();
    }
  }

  /**
   * A session that ends by itself has answered every turn, or given up on a failure it may give up on:
   * a rate limit, a server error or a request without a status is tried again while attempts are left.
   */
  lemma {:induction false} CompletedMeansAnsweredOrGivenUp(spec: SessionSpec, id: string, concurrency: int,
                                                           nTurns: nat, es: seq<Event>)
    requires 1 <= nTurns && 1 <= spec.maxAttempts && LegalRun(spec, Fresh(id, concurrency, nTurns), es)
    ensures var s := Run(spec, Fresh(id, concurrency, nTurns), es);
            s.phase == Closed(None) && s.status == Completed ==>
              s.completed == nTurns || GaveUp(s.records, spec.maxAttempts)
    ensures Insists(spec, Run(spec, Fresh(id, concurrency, nTurns), es))
  {
    var s := Fresh(id, concurrency, nTurns);
    FreshInv(spec, id, concurrency, nTurns);
    RunKeepsInv(spec, s, es);
    if es != [] {
      var before := es[..|es| - 1];
      RunKeepsInv(spec, s, before);
      CompletedMeansAnsweredOrGivenUp(spec, id, concurrency, nTurns, before);
      StepInsists(spec, Run(spec, s, before), es[|es| - 1]);
    }
  }

  // ----- what can come next

  predicate AnsweredLast(ms: seq<Message>) {
    ms != [] && ms[|ms| - 1].role.Assistant?
  }

  /** Where the loops stand after the event `e`, by what was said and received up to it. */
  function PhaseOf(spec: SessionSpec, nTurns: nat, e: Event, said: seq<Message>, rs: seq<RequestRecord>)
    : (phase: Phase)
  {
    match e
    case OpenTurn(stopSeen, _) =>
      if stopSeen then Closed(None) else if spec.maxAttempts >= 1 then AttemptTop else TurnEnd
    case BeginAttempt(stopBefore, _, stopAfter) => if stopBefore || stopAfter then TurnEnd else InFlight
    case Receive(r, _, _) => if r.ok || GaveUp(rs, spec.maxAttempts) then TurnEnd else RetryWait
    case EndTurn(_) =>
      if !AnsweredLast(said) || Count(rs, IsOk()) == nTurns then Closed(None)
      else if spec.thinkMaxMs <= 0 then TurnTop
      else ThinkWait
    case _ => if AnsweredLast(said) then TurnTop else AttemptTop
  }

  function PhaseAfter(spec: SessionSpec, nTurns: nat, es: seq<Event>): (phase: Phase) {
    if es == [] then TurnTop
    else if RaisedLast(spec, nTurns, es).Some? then Closed(RaisedLast(spec, nTurns, es))
    else PhaseOf(spec, nTurns, es[|es| - 1], Said(es), Received(es))
  }

  /** A record of the attempt that comes next: the turn is the answers so far, a failure is followed by one more try. */
  predicate AnswersNext(r: RequestRecord, id: string, concurrency: int, rs: seq<RequestRecord>) {
    && r.sessionId == id && r.concurrency == concurrency && r.turn == Count(rs, IsOk())
    && r.attempt == if rs != [] && !rs[|rs| - 1].ok then rs[|rs| - 1].attempt + 1 else 1
  }

  lemma StepPhase(spec: SessionSpec, s: Sess, e: Event, said: seq<Message>, rs: seq<RequestRecord>)
    requires Position(spec, s) && TranscriptMatches(s.messages, s.completed, AwaitingAnswer(s))
    requires Legal(spec, s, e) && s.completed == Count(s.records, IsOk())
    requires e.EndTurn? || e.Wake? ==> said == s.messages
    requires rs == if e.Receive? then s.records + [e.record] else s.records
    ensures var t := Step(spec, s, e);
            t.phase == PhaseOf(spec, s.nTurns, e, said, rs) || (t.phase.Closed? && t.phase.raised.Some?)
  {
    if e.Receive? {
      assert e.record.Key() == s.CurrentKey();
    }
  }

  /** The phase of the machine is where the loops stand. */
  lemma RunPhase(spec: SessionSpec, id: string, concurrency: int, nTurns: nat, es: seq<Event>)
    requires 1 <= nTurns && LegalRun(spec, Fresh(id, concurrency, nTurns), es)
    ensures Run(spec, Fresh(id, concurrency, nTurns), es).phase == PhaseAfter(spec, nTurns, es)
  {
    RunExplains(spec, id, concurrency, nTurns, es);
    if es != [] {
      var before, e := es[..|es| - 1], es[|es| - 1];
      var s := Run(spec, Fresh(id, concurrency, nTurns), before);
      RunTells(spec, id, concurrency, nTurns, before);
      RunExplains(spec, id, concurrency, nTurns, before);
      StepPhase(spec, s, e, Said(es), Received(es));
    }
  }

  /** The record that may come is the one of the attempt in flight. */
  lemma NextAttempt(spec: SessionSpec, s: Sess, r: RequestRecord)
    requires Inv(spec, s) && s.phase.InFlight?
    ensures r.Key() == s.CurrentKey() <==> AnswersNext(r, s.id, s.concurrency, s.records)
  {
  }

  /**
   * The events a session can go on with are exactly those its two loops wait for, whatever happened before:
   * any answer or failure of a request in flight, the end or cancellation of a wait, nothing once it is over.
   */
  lemma WhatCanComeNext(spec: SessionSpec, id: string, concurrency: int, nTurns: nat, es: seq<Event>, e: Event)
    requires 1 <= nTurns && LegalRun(spec, Fresh(id, concurrency, nTurns), es)
    ensures LegalRun(spec, Fresh(id, concurrency, nTurns), es + [e]) <==>
              match PhaseAfter(spec, nTurns, es)
              case TurnTop => e.OpenTurn?
              case AttemptTop => e.BeginAttempt?
              case InFlight =>
                || (e.Receive? && AnswersNext(e.record, id, concurrency, Received(es)))
                || (e.Abort? && e.error != BudgetError)
              case RetryWait => e.Wake? || e == Abort(CancelledError)
              case ThinkWait => e.Wake? || e == Abort(CancelledError)
              case TurnEnd => e.EndTurn?
              case Closed(_) => false
  {
    assert (es + [e])[..|es|] == es;
    RunPhase(spec, id, concurrency, nTurns, es);
    FreshInv(spec, id, concurrency, nTurns);
    RunKeepsInv(spec, Fresh(id, concurrency, nTurns), es);
    RunTells(spec, id, concurrency, nTurns, es);
    if e.Receive? && PhaseAfter(spec, nTurns, es).InFlight? {
      NextAttempt(spec, Run(spec, Fresh(id, concurrency, nTurns), es), e.record);
    }
  }
}
