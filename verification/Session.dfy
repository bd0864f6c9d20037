/** kneepoint/generator/session.py: one simulated user. */
module Session {
  // The session is a machine that moves one straight-line piece of `run_session` at a time. An event
  // carries everything the piece learns from outside: the stop flag at each check, what a callback
  // raises, what the awaited call returns or raises. `RunSession` is the nested loop itself, proved to
  // compute what the machine computes.

  import opened Basics
  import opened Records

  datatype Raised = CancelledError | BudgetError | OtherError

  datatype SessionSpec = SessionSpec(maxAttempts: int, thinkMaxMs: int)

  /** Where a session stands; the three waits are awaits, the tops and ends are loop positions. */
  datatype Phase =
    | TurnTop
    | AttemptTop
    | InFlight
    | RetryWait
    | TurnEnd
    | ThinkWait
    | Closed(raised: Option<Raised>)

  datatype Sess = Sess(
    id: string,
    concurrency: int,
    nTurns: nat,
    turn: nat,
    attempt: nat,
    messages: seq<Message>,
    records: seq<RequestRecord>,
    faults: seq<string>,
    completed: nat,
    accepted: Option<string>,
    active: Option<AttemptKey>,
    status: RunStatus,
    phase: Phase)
  {
    function CurrentKey(): (key: AttemptKey) {
      AttemptKey(id, concurrency, turn, attempt)
    }

    function Record(): (record: SessionRecord) {
      SessionRecord(id, concurrency, nTurns, completed, completed == nTurns, faults, messages)
    }
  }

  datatype Event =
    | OpenTurn(stopSeen: bool, prompt: Option<string>)
    | BeginAttempt(stopBefore: bool, observerRaises: Option<Raised>, stopAfter: bool)
    | Receive(record: RequestRecord, text: string, observerRaises: Option<Raised>)
    | Abort(error: Raised)
    | Wake
    | EndTurn(drawRaises: bool)

  predicate RetryableStatus(code: int) {
    code == 429 || code == 500 || code == 502 || code == 503
  }

  predicate Retryable(r: RequestRecord) {
    !r.ok && (r.statusCode.None? || RetryableStatus(r.statusCode.value))
  }

  function FaultOf(r: RequestRecord): (s: seq<string>) {
    if r.fault.Some? && r.fault.value != "" then [r.fault.value] else []
  }

  function Fresh(id: string, concurrency: int, nTurns: nat): (sess: Sess) {
    Sess(id, concurrency, nTurns, 0, 1, [], [], [], 0, None, None, Completed, TurnTop)
  }

  function DropLast<T>(s: seq<T>): (result: seq<T>) {
    if s == [] then [] else s[..|s| - 1]
  }

  function StatusOf(error: Raised): (status: RunStatus) {
    if error == CancelledError then Cancelled else Failed
  }

  function Withdrawn(ms: seq<Message>): (s: seq<Message>) {
    if ms != [] && ms[|ms| - 1].role.User? then DropLast(ms) else ms
  }

  /** The exception handler: an unanswered user message is withdrawn. */
  function Raise(s: Sess, error: Raised): (sess: Sess) {
    s.(status := StatusOf(error),
       active := None,
       messages := Withdrawn(s.messages),
       phase := Closed(Some(error)))
  }

  predicate Legal(spec: SessionSpec, s: Sess, e: Event) {
    match e
    case OpenTurn(_, _) => s.phase.TurnTop?
    case BeginAttempt(_, _, _) => s.phase.AttemptTop?
    case Receive(r, _, _) => s.phase.InFlight? && r.Key() == s.CurrentKey()
    case Abort(error) =>
      || (s.phase.InFlight? && error != BudgetError)
      || ((s.phase.RetryWait? || s.phase.ThinkWait?) && error == CancelledError)
    case Wake => s.phase.RetryWait? || s.phase.ThinkWait?
    case EndTurn(_) => s.phase.TurnEnd?
  }

  function Step(spec: SessionSpec, s: Sess, e: Event): (sess: Sess) {
    match e
    case OpenTurn(stopSeen, prompt) =>
      if stopSeen then s.(status := Stopped, phase := Closed(None))
      else if prompt.None? then Raise(s, OtherError)
      else s.(messages := s.messages + [Message(User, prompt.value)], accepted := None, attempt := 1,
              phase := if spec.maxAttempts >= 1 then AttemptTop else TurnEnd)
    case BeginAttempt(stopBefore, observerRaises, stopAfter) =>
      if stopBefore then s.(status := Stopped, phase := TurnEnd)
      else if observerRaises.Some? then Raise(s, observerRaises.value)
      else if stopAfter then s.(status := Stopped, phase := TurnEnd)
      else s.(active := Some(s.CurrentKey()), phase := InFlight)
    case Receive(r, text, observerRaises) =>
      var t := s.(records := s.records + [r], active := None, faults := s.faults + FaultOf(r));
      var u := if r.ok then t.(accepted := Some(text), messages := t.messages + [Message(Assistant, text)],
                               completed := t.completed + 1)
               else t;
      if observerRaises.Some? then Raise(u, observerRaises.value)
      else if r.ok || !Retryable(r) || s.attempt == spec.maxAttempts then u.(phase := TurnEnd)
      else u.(phase := RetryWait)
    case Abort(error) => Raise(s, error)
    case Wake =>
      if s.phase.RetryWait? then s.(attempt := s.attempt + 1, phase := AttemptTop)
      else s.(turn := s.turn + 1, phase := TurnTop)
    case EndTurn(drawRaises) =>
      if s.accepted.None? then s.(messages := DropLast(s.messages), phase := Closed(None))
      else if s.turn + 1 >= s.nTurns then s.(phase := Closed(None))
      else if spec.thinkMaxMs <= 0 then s.(turn := s.turn + 1, phase := TurnTop)
      else if drawRaises then Raise(s, OtherError)
      else s.(phase := ThinkWait)
  }

  function Run(spec: SessionSpec, s: Sess, es: seq<Event>): (sess: Sess) {
    if es == [] then s else Step(spec, Run(spec, s, es[..|es| - 1]), es[|es| - 1])
  }

  predicate LegalRun(spec: SessionSpec, s: Sess, es: seq<Event>) {
    es == [] || (LegalRun(spec, s, es[..|es| - 1]) && Legal(spec, Run(spec, s, es[..|es| - 1]), es[|es| - 1]))
  }

  // ----- what every state of every run keeps

  predicate Alternates(ms: seq<Message>) {
    forall i :: 0 <= i < |ms| ==> (ms[i].role.User? <==> i % 2 == 0)
  }

  /** The attempt (turn, attempt) may directly follow the attempt `last`. */
  predicate Follows(last: RequestRecord, turn: int, attempt: int) {
    || (turn == last.turn && attempt == last.attempt + 1 && Retryable(last))
    || (turn == last.turn + 1 && attempt == 1 && last.ok)
  }

  /** The attempt (turn, attempt) is the one that must come next after `rs`. */
  predicate ComesNext(rs: seq<RequestRecord>, turn: int, attempt: int) {
    if rs == [] then turn == 0 && attempt == 1 else Follows(rs[|rs| - 1], turn, attempt)
  }

  predicate Numbered(r: RequestRecord, id: string, concurrency: int, maxAttempts: int) {
    r.sessionId == id && r.concurrency == concurrency && 0 <= r.turn && 1 <= r.attempt <= maxAttempts
  }

  /** Attempts of one session in order: a retry only after a retryable failure, a turn only after a success. */
  predicate Chain(rs: seq<RequestRecord>, id: string, concurrency: int, maxAttempts: int) {
    && (forall i :: 0 <= i < |rs| ==> Numbered(rs[i], id, concurrency, maxAttempts))
    && (rs != [] ==> rs[0].turn == 0 && rs[0].attempt == 1)
    && (forall i :: 0 < i < |rs| ==> Follows(rs[i - 1], rs[i].turn, rs[i].attempt))
  }

  predicate AwaitingAnswer(s: Sess) {
    s.phase.AttemptTop? || s.phase.InFlight? || s.phase.RetryWait? || (s.phase.TurnEnd? && s.accepted.None?)
  }

  predicate Answered(s: Sess) {
    s.phase.ThinkWait? || (s.phase.TurnEnd? && s.accepted.Some?)
  }

  ghost predicate Position(spec: SessionSpec, s: Sess) {
    && (!s.phase.Closed? ==> s.turn < s.nTurns && s.completed == s.turn + if Answered(s) then 1 else 0)
    && (s.phase.TurnTop? ==> ComesNext(s.records, s.turn, 1))
    && (s.phase.AttemptTop? || s.phase.InFlight? || s.phase.RetryWait? ==>
          s.accepted.None? && 1 <= s.attempt <= spec.maxAttempts)
    && (s.phase.AttemptTop? || s.phase.InFlight? ==> ComesNext(s.records, s.turn, s.attempt))
    && (s.phase.ThinkWait? ==> s.turn + 1 < s.nTurns)
    && (s.phase.RetryWait? ==> s.attempt < spec.maxAttempts && ComesNext(s.records, s.turn, s.attempt + 1))
    && (Answered(s) ==> ComesNext(s.records, s.turn + 1, 1))
    && s.active == (if s.phase.InFlight? then Some(s.CurrentKey()) else None)
  }

  predicate TranscriptMatches(ms: seq<Message>, completed: nat, awaiting: bool) {
    Alternates(ms) && |ms| == 2 * completed + if awaiting then 1 else 0
  }

  /** The records made so far, against the counters the session keeps beside them. */
  ghost predicate Ledger(rs: seq<RequestRecord>, completed: nat, faults: seq<string>,
                         id: string, concurrency: int, nTurns: nat, maxAttempts: int) {
    && completed == Count(rs, IsOk()) <= nTurns
    && Chain(rs, id, concurrency, maxAttempts)
    && faults == FaultsOf(rs)
    && (forall i :: 0 <= i < |rs| ==> rs[i].turn < nTurns)
  }

  ghost predicate Inv(spec: SessionSpec, s: Sess) {
    && 1 <= s.nTurns
    && Position(spec, s)
    && TranscriptMatches(s.messages, s.completed, AwaitingAnswer(s))
    && Ledger(s.records, s.completed, s.faults, s.id, s.concurrency, s.nTurns, spec.maxAttempts)
  }

  /** The named faults of the attempts, in order. */
  function FaultsOf(rs: seq<RequestRecord>): (s: seq<string>) {
    if rs == [] then []
    else
      match rs[|rs| - 1].fault
      case None => FaultsOf(rs[..|rs| - 1])
      case Some("") => FaultsOf(rs[..|rs| - 1])
      case Some(name) => FaultsOf(rs[..|rs| - 1]) + [name]
  }

  lemma FreshInv(spec: SessionSpec, id: string, concurrency: int, nTurns: nat)
    requires 1 <= nTurns
    ensures Inv(spec, Fresh(id, concurrency, nTurns))
  {
  }

  lemma ChainSnoc(rs: seq<RequestRecord>, r: RequestRecord, id: string, concurrency: int, maxAttempts: int)
    requires Chain(rs, id, concurrency, maxAttempts) && Numbered(r, id, concurrency, maxAttempts)
    requires ComesNext(rs, r.turn, r.attempt)
    ensures Chain(rs + [r], id, concurrency, maxAttempts)
  {
  }

  lemma LedgerSnoc(rs: seq<RequestRecord>, completed: nat, faults: seq<string>, r: RequestRecord,
                   id: string, concurrency: int, nTurns: nat, maxAttempts: int)
    requires Ledger(rs, completed, faults, id, concurrency, nTurns, maxAttempts) && completed < nTurns
    requires Numbered(r, id, concurrency, maxAttempts) && r.turn < nTurns && ComesNext(rs, r.turn, r.attempt)
    ensures Ledger(rs + [r], completed + (if r.ok then 1 else 0), faults + FaultOf(r),
                   id, concurrency, nTurns, maxAttempts)
  {
    CountSnoc(rs, r, IsOk());
    ChainSnoc(rs, r, id, concurrency, maxAttempts);
    assert (rs + [r])[..|rs|] == rs;
  }

  /** Only a completed attempt touches the records and the counters kept beside them. */
  lemma StepRecords(spec: SessionSpec, s: Sess, e: Event)
    ensures var t := Step(spec, s, e);
            && t.id == s.id && t.concurrency == s.concurrency && t.nTurns == s.nTurns
            && t.records == (if e.Receive? then s.records + [e.record] else s.records)
            && t.faults == (if e.Receive? then s.faults + FaultOf(e.record) else s.faults)
            && t.completed == (if e.Receive? && e.record.ok then s.completed + 1 else s.completed)
  {
  }

  lemma StepKeepsLedger(spec: SessionSpec, s: Sess, e: Event)
    requires Position(spec, s) && Legal(spec, s, e)
    requires Ledger(s.records, s.completed, s.faults, s.id, s.concurrency, s.nTurns, spec.maxAttempts)
    ensures var t := Step(spec, s, e);
            Ledger(t.records, t.completed, t.faults, t.id, t.concurrency, t.nTurns, spec.maxAttempts)
  {
    StepRecords(spec, s, e);
    if e.Receive? {
      var r := e.record;
      assert r.Key() == s.CurrentKey();
      LedgerSnoc(s.records, s.completed, s.faults, r, s.id, s.concurrency, s.nTurns, spec.maxAttempts);
    }
  }

  lemma QuestionAdded(ms: seq<Message>, completed: nat, m: Message)
    requires TranscriptMatches(ms, completed, false) && m.role.User?
    ensures TranscriptMatches(ms + [m], completed, true)
  {
  }

  lemma AnswerAdded(ms: seq<Message>, completed: nat, m: Message)
    requires TranscriptMatches(ms, completed, true) && m.role.Assistant?
    ensures TranscriptMatches(ms + [m], completed + 1, false)
  {
  }

  lemma QuestionWithdrawn(ms: seq<Message>, completed: nat, awaiting: bool)
    requires TranscriptMatches(ms, completed, awaiting)
    ensures TranscriptMatches(Withdrawn(ms), completed, false)
    ensures awaiting ==> TranscriptMatches(DropLast(ms), completed, false)
  {
  }

  lemma StepKeepsTranscript(spec: SessionSpec, s: Sess, e: Event)
    requires Position(spec, s) && TranscriptMatches(s.messages, s.completed, AwaitingAnswer(s)) && Legal(spec, s, e)
    ensures var t := Step(spec, s, e); TranscriptMatches(t.messages, t.completed, AwaitingAnswer(t))
  {
    QuestionWithdrawn(s.messages, s.completed, AwaitingAnswer(s));
    match e
    case OpenTurn(_, prompt) =>
      if prompt.Some? {
        QuestionAdded(s.messages, s.completed, Message(User, prompt.value));
      }
    case Receive(r, text, _) =>
      if r.ok {
        AnswerAdded(s.messages, s.completed, Message(Assistant, text));
        QuestionWithdrawn(s.messages + [Message(Assistant, text)], s.completed + 1, false);
      }
    case _ =>
  }

  lemma StepKeepsPosition(spec: SessionSpec, s: Sess, e: Event)
    requires Position(spec, s) && Legal(spec, s, e)
    ensures Position(spec, Step(spec, s, e))
  {
  }

  lemma StepKeepsInv(spec: SessionSpec, s: Sess, e: Event)
    requires Inv(spec, s) && Legal(spec, s, e)
    ensures Inv(spec, Step(spec, s, e))
    ensures Step(spec, s, e).id == s.id && Step(spec, s, e).concurrency == s.concurrency
    ensures Step(spec, s, e).nTurns == s.nTurns
  {
    StepRecords(spec, s, e);
    StepKeepsLedger(spec, s, e);
    StepKeepsTranscript(spec, s, e);
    StepKeepsPosition(spec, s, e);
  }

  lemma {:induction false} RunKeepsInv(spec: SessionSpec, s: Sess, es: seq<Event>)
    requires Inv(spec, s) && LegalRun(spec, s, es)
    ensures Inv(spec, Run(spec, s, es))
    ensures Run(spec, s, es).id == s.id && Run(spec, s, es).nTurns == s.nTurns
    ensures Run(spec, s, es).concurrency == s.concurrency
  {
    if es != [] {
      RunKeepsInv(spec, s, es[..|es| - 1]);
      StepKeepsInv(spec, Run(spec, s, es[..|es| - 1]), es[|es| - 1]);
    }
  }

  // ----- how a closed session reads

  /**
   * The published session against the attempts it made: an alternating transcript of exactly the
   * answered turns, one success per answered turn, attempts in order, and no answer missing before
   * the last turn tried.
   */
  ghost predicate Sound(sr: SessionRecord, rs: seq<RequestRecord>, maxAttempts: int) {
    && TranscriptMatches(sr.transcript, sr.turnsCompleted, false)
    && Ledger(rs, sr.turnsCompleted, sr.faults, sr.sessionId, sr.concurrency, sr.turnsRequested, maxAttempts)
    && (sr.ok <==> sr.turnsCompleted == sr.turnsRequested)
  }

  /** Every exit: normal return, cooperative stop, cancellation or an exception from any call. */
  lemma EveryExitIsSound(spec: SessionSpec, id: string, concurrency: int, nTurns: nat, es: seq<Event>)
    requires 1 <= nTurns
    requires LegalRun(spec, Fresh(id, concurrency, nTurns), es)
    requires Run(spec, Fresh(id, concurrency, nTurns), es).phase.Closed?
    ensures var s := Run(spec, Fresh(id, concurrency, nTurns), es);
            && Sound(s.Record(), s.records, spec.maxAttempts)
            && s.Record().sessionId == id
            && s.Record().turnsRequested == nTurns
            && s.Record().concurrency == concurrency
  {
    FreshInv(spec, id, concurrency, nTurns);
    RunKeepsInv(spec, Fresh(id, concurrency, nTurns), es);
  }

  function OfTurn(turn: int): (p: RequestRecord -> bool) {
    (r: RequestRecord) => r.turn == turn
  }

  /** Turns only move forward along a chain, and a failed attempt's successor stays in its turn. */
  lemma {:induction false} ChainOrder(rs: seq<RequestRecord>, id: string, concurrency: int, maxAttempts: int,
                                      i: nat, j: nat)
    requires Chain(rs, id, concurrency, maxAttempts) && i < j < |rs|
    ensures rs[i].turn < rs[j].turn || (rs[i].turn == rs[j].turn && rs[i].attempt < rs[j].attempt)
    decreases j
  {
    assert Follows(rs[j - 1], rs[j].turn, rs[j].attempt);
    if i < j - 1 {
      ChainOrder(rs, id, concurrency, maxAttempts, i, j - 1);
    }
  }

  /** The attempts of each turn are numbered 1, 2, 3, ... in the order they were made. */
  lemma {:induction false} AttemptsAreNumbered(rs: seq<RequestRecord>, id: string, concurrency: int,
                                               maxAttempts: int, i: nat)
    requires Chain(rs, id, concurrency, maxAttempts) && i < |rs|
    ensures rs[i].attempt == 1 + Count(rs[..i], OfTurn(rs[i].turn))
    decreases i
  {
    if i > 0 {
      assert Follows(rs[i - 1], rs[i].turn, rs[i].attempt);
      var before := rs[..i];
      assert before[..i - 1] == rs[..i - 1];
      AttemptsAreNumbered(rs, id, concurrency, maxAttempts, i - 1);
      if rs[i].turn == rs[i - 1].turn + 1 {
        forall x | x in before
          ensures !OfTurn(rs[i].turn)(x)
        {
          var k :| 0 <= k < i && rs[k] == x;
          ChainOrder(rs, id, concurrency, maxAttempts, k, i);
          if k < i - 1 {
            ChainOrder(rs, id, concurrency, maxAttempts, k, i - 1);
          }
        }
        CountZero(before, OfTurn(rs[i].turn));
      }
    }
  }

  /**
   * In every finished session, on whatever exit, each attempt but the last is a retryable failure that was
   * retried with the next number, or an answer followed by the first attempt of the next turn.
   */
  lemma NonFinalAttempts(spec: SessionSpec, id: string, concurrency: int, nTurns: nat, es: seq<Event>, i: nat)
    requires 1 <= nTurns && LegalRun(spec, Fresh(id, concurrency, nTurns), es)
    requires i + 1 < |Run(spec, Fresh(id, concurrency, nTurns), es).records|
    ensures var rs := Run(spec, Fresh(id, concurrency, nTurns), es).records;
            var r, next := rs[i], rs[i + 1];
            || (!r.ok && (r.statusCode.None? || r.statusCode.value in {429, 500, 502, 503})
                && next.turn == r.turn && next.attempt == r.attempt + 1 <= spec.maxAttempts)
            || (r.ok && next.turn == r.turn + 1 < nTurns && next.attempt == 1)
  {
    FreshInv(spec, id, concurrency, nTurns);
    RunKeepsInv(spec, Fresh(id, concurrency, nTurns), es);
    var rs := Run(spec, Fresh(id, concurrency, nTurns), es).records;
    assert Follows(rs[i + 1 - 1], rs[i + 1].turn, rs[i + 1].attempt);
  }

  // ----- every session ends

  function StepsPerTurn(spec: SessionSpec): (n: nat) {
    3 * MaxInt(0, spec.maxAttempts) + 3
  }

  /** Steps still possible in the current turn. */
  function WithinTurn(spec: SessionSpec, s: Sess): (n: int) {
    var attemptsLeft := MaxInt(0, spec.maxAttempts) - s.attempt;
    match s.phase
    case TurnTop => StepsPerTurn(spec)
    case AttemptTop => 3 * attemptsLeft + 5
    case InFlight => 3 * attemptsLeft + 4
    case RetryWait => 3 * attemptsLeft + 3
    case TurnEnd => 2
    case ThinkWait => 1
    case Closed(_) => 0
  }

  /** Steps still possible: whole turns left, then attempts and position within this turn. */
  function Remaining(spec: SessionSpec, s: Sess): (n: int) {
    if s.phase.Closed? then 0 else (s.nTurns - s.turn - 1) * StepsPerTurn(spec) + WithinTurn(spec, s)
  }

  lemma StepDecreases(spec: SessionSpec, s: Sess, e: Event)
    requires Position(spec, s) && Legal(spec, s, e)
    ensures 0 <= Remaining(spec, Step(spec, s, e)) < Remaining(spec, s)
  {
    var t := Step(spec, s, e);
    StepKeepsPosition(spec, s, e);
    WholeTurns(s.nTurns - s.turn - 1, StepsPerTurn(spec));
  }

  lemma WholeTurns(k: int, per: nat)
    requires 0 <= k
    ensures 0 <= k * per
    ensures 1 <= k ==> k * per == (k - 1) * per + per && 0 <= (k - 1) * per
  {
  }

  lemma {:induction false} SessionEnds(spec: SessionSpec, id: string, concurrency: int, nTurns: nat, es: seq<Event>)
    requires 1 <= nTurns
    requires LegalRun(spec, Fresh(id, concurrency, nTurns), es)
    ensures |es| + Remaining(spec, Run(spec, Fresh(id, concurrency, nTurns), es)) <= nTurns * StepsPerTurn(spec)
    ensures Remaining(spec, Run(spec, Fresh(id, concurrency, nTurns), es)) >= 0
  {
    var s := Fresh(id, concurrency, nTurns);
    FreshInv(spec, id, concurrency, nTurns);
    if es == [] {
      assert (nTurns - 1) * StepsPerTurn(spec) + StepsPerTurn(spec) == nTurns * StepsPerTurn(spec);
    } else {
      SessionEnds(spec, id, concurrency, nTurns, es[..|es| - 1]);
      RunKeepsInv(spec, s, es[..|es| - 1]);
      StepDecreases(spec, Run(spec, s, es[..|es| - 1]), es[|es| - 1]);
    }
  }

  // ----- the nested loops

  lemma PrefixIsLegal(spec: SessionSpec, s: Sess, es: seq<Event>, k: nat)
    requires LegalRun(spec, s, es) && k < |es|
    ensures LegalRun(spec, s, es[..k]) && Legal(spec, Run(spec, s, es[..k]), es[k])
    ensures Run(spec, s, es[..k + 1]) == Step(spec, Run(spec, s, es[..k]), es[k])
    decreases |es|
  {
    assert es[..k + 1][..k] == es[..k];
    if k < |es| - 1 {
      assert es[..|es| - 1][..k] == es[..k];
      PrefixIsLegal(spec, s, es[..|es| - 1], k);
    }
  }

  /** The states a script goes through: one before each event and one at the end. */
  ghost predicate IsTrace(spec: SessionSpec, script: seq<Event>, states: seq<Sess>) {
    && |states| == |script| + 1
    && states[|script|].phase.Closed?
    && forall i :: 0 <= i < |script| ==>
         Legal(spec, states[i], script[i]) && states[i + 1] == Step(spec, states[i], script[i])
  }

  lemma TraceOf(spec: SessionSpec, s: Sess, es: seq<Event>)
    returns (states: seq<Sess>)
    requires LegalRun(spec, s, es) && Run(spec, s, es).phase.Closed?
    ensures IsTrace(spec, es, states) && states[0] == s && states[|es|] == Run(spec, s, es)
  {
    states := seq(|es| + 1, k requires 0 <= k <= |es| => Run(spec, s, es[..k]));
    assert es[..|es|] == es;
    forall i | 0 <= i < |es|
      ensures Legal(spec, states[i], es[i]) && states[i + 1] == Step(spec, states[i], es[i])
    {
      PrefixIsLegal(spec, s, es, i);
    }
  }

  /** An open session inside a complete script has a next event, and it is a legal one. */
  lemma Advance(spec: SessionSpec, script: seq<Event>, states: seq<Sess>, k: nat)
    requires IsTrace(spec, script, states) && k <= |script| && !states[k].phase.Closed?
    ensures k < |script| && Legal(spec, states[k], script[k])
    ensures states[k + 1] == Step(spec, states[k], script[k])
  {
  }

  /** The locals of `run_session` hold what the machine holds. */
  ghost predicate Mirrors(s: Sess, messages: seq<Message>, records: seq<RequestRecord>, faults: seq<string>,
                          completed: nat, accepted: Option<string>, status: RunStatus, raised: Option<Raised>)
  {
    && s.records == records && s.faults == faults && s.completed == completed
    && (s.phase.Closed? ==> s.phase.raised == raised)
    && (!s.phase.Closed? ==> raised.None? && s.accepted == accepted)
    && (raised.None? ==> s.messages == messages && s.status == status)
    && (raised.Some? ==> s.status == StatusOf(raised.value) && s.messages == Withdrawn(messages))
  }

  /** The exception handler of the session. */
  method HandleExit(messages0: seq<Message>, status0: RunStatus, raised: Option<Raised>)
    returns (messages: seq<Message>, status: RunStatus)
    ensures status == if raised.Some? then StatusOf(raised.value) else status0
    ensures messages == if raised.Some? then Withdrawn(messages0) else messages0
  {
    messages, status := messages0, status0;
    if raised.Some? {
      status := if raised.value == CancelledError then Cancelled else Failed;
      if messages != [] && messages[|messages| - 1].role.User? {
        messages := messages[..|messages| - 1];
      }
    }
  }

  /** The inner loop: the attempts of one turn. */
  method RunAttempts(spec: SessionSpec, key: AttemptKey, script: seq<Event>, ghost states: seq<Sess>, start: nat,
                     messages0: seq<Message>, records0: seq<RequestRecord>, faults0: seq<string>, completed0: nat)
    returns (messages: seq<Message>, records: seq<RequestRecord>, faults: seq<string>, completed: nat,
             accepted: Option<string>, status: RunStatus, raised: Option<Raised>, next: nat)
    requires IsTrace(spec, script, states) && start <= |script|
    requires var s := states[start];
             && Mirrors(s, messages0, records0, faults0, completed0, None, Completed, None)
             && s.phase == (if spec.maxAttempts >= 1 then AttemptTop else TurnEnd)
             && s.attempt == 1 && messages0 != []
             && key == s.CurrentKey()
    ensures start <= next <= |script|
    ensures var s := states[next];
            && Mirrors(s, messages, records, faults, completed, accepted, status, raised)
            && messages != []
            && s.turn == states[start].turn && s.id == states[start].id
            && s.concurrency == states[start].concurrency && s.nTurns == states[start].nTurns
            && s.phase == (if raised.Some? then Closed(raised) else TurnEnd)
            && (accepted.Some? && raised.None? ==> status == Completed)
  {
    messages, records, faults, completed := messages0, records0, faults0, completed0;
    accepted, status, raised, next := None, Completed, None, start;
    ghost var s := states[start];
    var attempt := 1;
    while attempt <= spec.maxAttempts
      invariant 1 <= attempt && start <= next <= |script| && s == states[next]
      invariant Mirrors(s, messages, records, faults, completed, None, Completed, None)
      invariant s.phase == if spec.maxAttempts >= 1 then AttemptTop else TurnEnd
      invariant spec.maxAttempts >= 1 ==> s.attempt == attempt <= spec.maxAttempts
      invariant s.turn == states[start].turn && s.id == states[start].id && messages != []
      invariant s.concurrency == states[start].concurrency && s.nTurns == states[start].nTurns
      invariant accepted.None? && status == Completed && raised.None?
      decreases spec.maxAttempts - attempt
    {
      Advance(spec, script, states, next);
      var begin := script[next];
      s, next := states[next + 1], next + 1;
      if begin.stopBefore {
        status := Stopped;
        break;
      }
      if begin.observerRaises.Some? {
        raised := begin.observerRaises;
        break;
      }
      if begin.stopAfter {
        status := Stopped;
        break;
      }
      // await run_turn
      Advance(spec, script, states, next);
      var outcome := script[next];
      s, next := states[next + 1], next + 1;
      if outcome.Abort? {
        raised := Some(outcome.error);
        break;
      }
      records := records + [outcome.record];
      if outcome.record.fault.Some? && outcome.record.fault.value != "" {
        faults := faults + [outcome.record.fault.value];
      }
      if outcome.record.ok {
        accepted := Some(outcome.text);
        messages := messages + [Message(Assistant, outcome.text)];
        completed := completed + 1;
      }
      if outcome.observerRaises.Some? {
        raised := outcome.observerRaises;
        break;
      }
      var code := outcome.record.statusCode;
      if outcome.record.ok {
        break;
      }
      if (code.Some? && code.value !in {429, 500, 502, 503}) || attempt == spec.maxAttempts {
        break;
      }
      // await wait_or_stop
      Advance(spec, script, states, next);
      var waited := script[next];
      s, next := states[next + 1], next + 1;
      if waited.Abort? {
        raised := Some(waited.error);
        break;
      }
      attempt := attempt + 1;
    }
  }

  /** The outer loop: the turns of one session, up to the point where it returns or raises. */
  method RunTurns(spec: SessionSpec, id: string, concurrency: int, nTurns: nat,
                  script: seq<Event>, ghost states: seq<Sess>)
    returns (messages: seq<Message>, records: seq<RequestRecord>, faults: seq<string>, completed: nat,
             status: RunStatus, raised: Option<Raised>)
    requires 1 <= nTurns
    requires IsTrace(spec, script, states) && states[0] == Fresh(id, concurrency, nTurns)
    ensures Mirrors(states[|script|], messages, records, faults, completed, None, status, raised)
  {
    messages, records, faults, completed := [], [], [], 0;
    status, raised := Completed, None;
    ghost var s := states[0];
    var next := 0;  // the script's next event
    var turn := 0;
    while turn < nTurns
      invariant next <= |script| && s == states[next]
      invariant Mirrors(s, messages, records, faults, completed, s.accepted, status, raised)
      invariant status == Completed && raised.None?
      invariant s.phase == if turn < nTurns then TurnTop else Closed(None)
      invariant turn < nTurns ==> s.turn == turn
      invariant s.id == id && s.concurrency == concurrency && s.nTurns == nTurns
    {
      Advance(spec, script, states, next);
      var opening := script[next];
      s, next := states[next + 1], next + 1;
      if opening.stopSeen {
        status := Stopped;
        break;
      }
      if opening.prompt.None? {
        raised := Some(OtherError);
        break;
      }
      messages := messages + [Message(User, opening.prompt.value)];
      var accepted;
      messages, records, faults, completed, accepted, status, raised, next :=
        RunAttempts(spec, AttemptKey(id, concurrency, turn, 1), script, states, next,
                    messages, records, faults, completed);
      s := states[next];
      if raised.Some? {
        break;
      }
      Advance(spec, script, states, next);
      var ending := script[next];
      s, next := states[next + 1], next + 1;
      if accepted.None? {
        messages := messages[..|messages| - 1];
        break;
      }
      if turn + 1 < nTurns && spec.thinkMaxMs > 0 {
        if ending.drawRaises {
          raised := Some(OtherError);
          break;
        }
        // await wait_or_stop
        Advance(spec, script, states, next);
        var thought := script[next];
        s, next := states[next + 1], next + 1;
        if thought.Abort? {
          raised := Some(thought.error);
          break;
        }
      }
      turn := turn + 1;
    }
    assert s.phase.Closed?;
  }

  /** The whole of `run_session`: for every complete run of outside events, the loops end where the machine ends. */
  method RunSession(spec: SessionSpec, id: string, concurrency: int, nTurns: nat, script: seq<Event>)
    returns (session: SessionRecord, records: seq<RequestRecord>, status: RunStatus, raised: Option<Raised>)
    requires 1 <= nTurns && LegalRun(spec, Fresh(id, concurrency, nTurns), script)
    requires Run(spec, Fresh(id, concurrency, nTurns), script).phase.Closed?
    ensures var s := Run(spec, Fresh(id, concurrency, nTurns), script);
            session == s.Record() && records == s.records && status == s.status && raised == s.phase.raised
    ensures Sound(session, records, spec.maxAttempts)
  {
    ghost var states := TraceOf(spec, Fresh(id, concurrency, nTurns), script);
    EveryExitIsSound(spec, id, concurrency, nTurns, script);
    var messages, faults, completed;
    messages, records, faults, completed, status, raised := RunTurns(spec, id, concurrency, nTurns, script, states);
    messages, status := HandleExit(messages, status, raised);
    session := SessionRecord(id, concurrency, nTurns, completed, completed == nTurns, faults, messages);
  }
}
