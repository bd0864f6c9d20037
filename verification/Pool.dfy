/** kneepoint/generator/pool.py: one load level, N workers sharing stop event, evidence and spend controller. */
module Pool {
  // A level is a machine over values. An adversary picks the next event: which worker moves, what its
  // awaited call returns or raises, what the callbacks raise, when the level is cancelled and when someone
  // sets the stop event. asyncio switches tasks only at awaits; the machine may also switch at loop
  // heads, so it has every run asyncio has and more, as long as a cancelled request ends cancelled.

  import opened Basics
  import opened Records
  import opened Budget
  import opened Lifecycle
  import opened Session

  datatype Shared = Shared(acct: Account, ev: Evidence, used: set<string>, quiet: bool)

  datatype Place =
    | Idle
    | Busy(sess: Sess)
    | After(records: seq<RequestRecord>)
    | Returned
    | Dead(error: Raised)

  datatype Worker = Worker(sessions: nat, place: Place)

  datatype Main = Gathering | Draining(error: Raised) | Ended(status: RunStatus, raised: Option<Raised>)

  datatype Level = Level(concurrency: nat, spec: SessionSpec, sh: Shared, workers: seq<Worker>, main: Main)

  datatype LevelEvent =
    | SetStop
    | StartSession(worker: nat, id: string, nTurns: nat)
    | Act(worker: nat, event: Event, spendSeen: bool)
    | Report(worker: nat, error: Option<Raised>, deadlinePassed: bool)
    | LeaveLoop(worker: nat)
    | CancelIdle(worker: nat)
    | ChildFailed(worker: nat)
    | CancelLevel
    | Join(exitRaises: Option<Raised>)

  function Halt(a: Account): (account: Account) {
    a.(stopped := true)
  }

  /** `run_level` up to its first await. */
  function Begin(sh: Shared, concurrency: nat, spec: SessionSpec): (level: Level) {
    var ev := SetLevel(sh.ev, concurrency, Running);
    if sh.acct.stopped then
      Level(concurrency, spec, sh.(ev := SetLevel(ev, concurrency, Stopped)), [], Ended(Stopped, None))
    else
      Level(concurrency, spec, sh.(ev := ev), seq(concurrency, _ => Worker(0, Idle)), Gathering)
  }

  /** What registering an attempt leaves in the evidence. */
  function Begun(ev: Evidence, key: AttemptKey, observerRaises: Option<Raised>, stopAfter: bool): (evidence: Evidence) {
    var started := Start(ev, key);
    if observerRaises.Some? then FinishAttempt(started, key, StatusOf(observerRaises.value))
    else if stopAfter then FinishAttempt(started, key, Stopped)
    else Dispatch(started, key)
  }

  /** What one step of a session does to the shared objects. */
  function Touch(spec: SessionSpec, s: Sess, e: Event, spendSeen: bool, sh: Shared): (shared: Shared) {
    var during := match e
      case OpenTurn(_, _) => sh
      case BeginAttempt(stopBefore, observerRaises, stopAfter) =>
        if stopBefore then sh
        else sh.(acct := if stopAfter then Halt(sh.acct) else sh.acct,
                 ev := Begun(sh.ev, s.CurrentKey(), observerRaises, stopAfter))
      case Receive(r, _, observerRaises) =>
        sh.(ev := FinishAttempt(AddRecord(sh.ev, r), s.CurrentKey(), Completed),
            acct := if spendSeen then Observe(sh.acct, r).0 else sh.acct,
            quiet := sh.quiet && observerRaises.None?)
      case Abort(error) =>
        if s.active.Some? then sh.(ev := FinishAttempt(sh.ev, s.active.value, StatusOf(error))) else sh
      case Wake => sh
      case EndTurn(_) => sh;
    var t := Step(spec, s, e);
    if t.phase.Closed? then during.(ev := AddSession(during.ev, t.Record(), t.status)) else during
  }

  /** Where the worker is after its session stepped to `t`. */
  function PlaceOf(t: Sess): (place: Place) {
    match t.phase
    case Closed(Some(error)) => Dead(error)
    case Closed(None) => After(t.records)
    case _ => Busy(t)
  }

  predicate Awaiting(s: Sess) {
    s.phase.InFlight? || s.phase.RetryWait? || s.phase.ThinkWait?
  }

  /** The stop flag, the controller and a pending cancellation are what the event says they are. */
  predicate Observes(sh: Shared, main: Main, s: Sess, e: Event, spendSeen: bool) {
    && (main.Draining? && Awaiting(s) ==> e == Abort(CancelledError))
    && match e
       case OpenTurn(stopSeen, _) => stopSeen == sh.acct.stopped
       case BeginAttempt(stopBefore, _, _) => stopBefore == sh.acct.stopped
       case Receive(r, _, observerRaises) =>
         && (observerRaises.None? ==> spendSeen)
         && (spendSeen && Observe(sh.acct, r).1.Rejected? ==> observerRaises.Some?)
       case _ => true
  }

  predicate Allowed(l: Level, e: LevelEvent) {
    && !l.main.Ended?
    && match e
       case SetStop => !l.sh.acct.stopped
       case StartSession(i, id, nTurns) =>
         && i < |l.workers| && l.workers[i].place.Idle? && l.main.Gathering?
         && !l.sh.acct.stopped && id !in l.sh.used && 1 <= nTurns
       case Act(i, event, spendSeen) =>
         && i < |l.workers| && l.workers[i].place.Busy?
         && Legal(l.spec, l.workers[i].place.sess, event)
         && Observes(l.sh, l.main, l.workers[i].place.sess, event, spendSeen)
       case Report(i, _, _) => i < |l.workers| && l.workers[i].place.After?
       case LeaveLoop(i) => i < |l.workers| && l.workers[i].place.Idle? && l.sh.acct.stopped
       case CancelIdle(i) => i < |l.workers| && l.workers[i].place.Idle? && l.main.Draining?
       case ChildFailed(i) => i < |l.workers| && l.workers[i].place.Dead? && l.main.Gathering?
       case CancelLevel => l.main.Gathering?
       case Join(_) =>
         forall i :: 0 <= i < |l.workers| ==>
           l.workers[i].place.Returned? || (l.main.Draining? && l.workers[i].place.Dead?)
  }

  function Move(l: Level, i: nat, place: Place): (level: Level)
    requires i < |l.workers|
  {
    l.(workers := l.workers[i := l.workers[i].(place := place)])
  }

  function End(l: Level, how: RunStatus, raised: Option<Raised>): (level: Level) {
    l.(main := Ended(how, raised), sh := l.sh.(ev := SetLevel(l.sh.ev, l.concurrency, how)))
  }

  function ActOn(l: Level, i: nat, e: Event, spendSeen: bool): (level: Level)
    requires i < |l.workers| && l.workers[i].place.Busy?
  {
    var s := l.workers[i].place.sess;
    var t := Step(l.spec, s, e);
    var done := l.workers[i].sessions + if t.phase.Closed? then 1 else 0;
    l.(workers := l.workers[i := Worker(done, PlaceOf(t))], sh := Touch(l.spec, s, e, spendSeen, l.sh))
  }

  /** What a level raises once its workers are joined: an exception from the client's exit replaces any other. */
  function RaisedAtEnd(main: Main, exitRaises: Option<Raised>): (r: Option<Raised>) {
    if exitRaises.Some? then exitRaises
    else if main.Draining? then Some(main.error)
    else None
  }

  function Apply(l: Level, e: LevelEvent): (level: Level)
    requires Allowed(l, e)
  {
    match e
    case SetStop => l.(sh := l.sh.(acct := Halt(l.sh.acct)))
    case StartSession(i, id, nTurns) =>
      Move(l, i, Busy(Fresh(id, l.concurrency, nTurns))).(sh := l.sh.(used := l.sh.used + {id}))
    case Act(i, event, spendSeen) => ActOn(l, i, event, spendSeen)
    case Report(i, error, deadlinePassed) =>
      Move(l, i, if error.Some? then Dead(error.value) else if deadlinePassed then Returned else Idle)
    case LeaveLoop(i) => Move(l, i, Returned)
    case CancelIdle(i) => Move(l, i, Dead(CancelledError))
    case ChildFailed(i) => l.(main := Draining(l.workers[i].place.error))
    case CancelLevel => l.(main := Draining(CancelledError))
    case Join(exitRaises) =>
      if RaisedAtEnd(l.main, exitRaises).Some? then
        End(l, StatusOf(RaisedAtEnd(l.main, exitRaises).value), RaisedAtEnd(l.main, exitRaises))
      else if l.sh.acct.stopped then End(l, Stopped, None)
      else End(l, Completed, None)
  }

  /** A run: every event allowed where it happens. */
  ghost predicate IsRun(l: Level, es: seq<LevelEvent>, m: Level)
    decreases |es|
  {
    if es == [] then m == l else Allowed(l, es[0]) && IsRun(Apply(l, es[0]), es[1..], m)
  }

  // ----- the invariant

  /** Every attempt registered for this session comes before the one it will register next. */
  ghost predicate KeysBehind(s: Sess, attempts: map<AttemptKey, AttemptInfo>) {
    forall k :: k in attempts && k.sessionId == s.id ==>
      || k.turn < s.turn
      || (k.turn == s.turn && match s.phase
            case TurnTop => false
            case AttemptTop => k.attempt < s.attempt
            case InFlight => k.attempt <= s.attempt
            case RetryWait => k.attempt <= s.attempt
            case _ => true)
  }

  ghost predicate Attached(spec: SessionSpec, concurrency: nat, s: Sess, sh: Shared) {
    && Inv(spec, s) && !s.phase.Closed? && s.concurrency == concurrency
    && s.id in sh.used
    && Filter(sh.ev.records, OfSession(s.id)) == s.records
    && (s.active.Some? ==> s.active.value in sh.ev.attempts
                           && sh.ev.attempts[s.active.value] == AttemptInfo(Starting, true))
    && KeysBehind(s, sh.ev.attempts)
    && (forall k :: 0 <= k < |sh.ev.sessions| ==> sh.ev.sessions[k].sessionId != s.id)
  }

  ghost predicate AllAttached(spec: SessionSpec, concurrency: nat, ws: seq<Worker>, sh: Shared) {
    forall i :: 0 <= i < |ws| && ws[i].place.Busy? ==> Attached(spec, concurrency, ws[i].place.sess, sh)
  }

  predicate DistinctIds(ws: seq<Worker>) {
    forall i, j :: 0 <= i < j < |ws| && ws[i].place.Busy? && ws[j].place.Busy? ==>
      ws[i].place.sess.id != ws[j].place.sess.id
  }

  /** Every published session reads true against the attempts recorded under its id. */
  ghost predicate SessionsSound(sessions: seq<SessionRecord>, records: seq<RequestRecord>, maxAttempts: int) {
    forall k :: 0 <= k < |sessions| ==>
      Sound(sessions[k], Filter(records, OfSession(sessions[k].sessionId)), maxAttempts)
  }

  ghost predicate IdsUsed(sh: Shared) {
    && (forall k :: 0 <= k < |sh.ev.records| ==> sh.ev.records[k].sessionId in sh.used)
    && (forall k :: 0 <= k < |sh.ev.sessions| ==> sh.ev.sessions[k].sessionId in sh.used)
    && (forall k :: k in sh.ev.attempts ==> k.sessionId in sh.used)
  }

  /** The accounting and the evidence agree as long as no completion observer has raised. */
  ghost predicate BooksBalance(sh: Shared) {
    && DistinctKeys(sh.ev.records)
    && (sh.quiet ==> Accounts(sh.acct, sh.ev.records))
    && BelowCapUnlessStopped(sh.acct)
  }

  /** What holds of the shared objects between levels. */
  ghost predicate SharedInv(sh: Shared, maxAttempts: int) {
    IdsUsed(sh) && BooksBalance(sh) && SessionsSound(sh.ev.sessions, sh.ev.records, maxAttempts)
  }

  ghost predicate LevelInv(l: Level) {
    && (l.main.Ended? || |l.workers| == l.concurrency)
    && SharedInv(l.sh, l.spec.maxAttempts)
    && AllAttached(l.spec, l.concurrency, l.workers, l.sh)
    && DistinctIds(l.workers)
  }

  // ----- what one session step leaves alone

  lemma TouchRecords(spec: SessionSpec, s: Sess, e: Event, spendSeen: bool, sh: Shared)
    ensures var sh' := Touch(spec, s, e, spendSeen, sh);
            && sh'.ev.records == (if e.Receive? then sh.ev.records + [e.record] else sh.ev.records)
            && sh'.ev.sessions == (if Step(spec, s, e).phase.Closed?
                                   then sh.ev.sessions + [Step(spec, s, e).Record()] else sh.ev.sessions)
            && sh'.ev.levelStatus == sh.ev.levelStatus
            && sh'.used == sh.used
  {
  }

  lemma TouchAccount(spec: SessionSpec, s: Sess, e: Event, spendSeen: bool, sh: Shared)
    ensures var sh' := Touch(spec, s, e, spendSeen, sh);
            && sh'.acct == (if e.Receive? && spendSeen then Observe(sh.acct, e.record).0
                            else if e.BeginAttempt? && !e.stopBefore && e.stopAfter then Halt(sh.acct)
                            else sh.acct)
            && sh'.quiet == (sh.quiet && (e.Receive? ==> e.observerRaises.None?))
  {
  }

  ghost predicate SameEntry(before: map<AttemptKey, AttemptInfo>, after: map<AttemptKey, AttemptInfo>, k: AttemptKey) {
    (k in after <==> k in before) && (k in before ==> after[k] == before[k])
  }

  /** Registering, dispatching and finishing an attempt only touch its own entry. */
  lemma OtherEntries(ev: Evidence, own: AttemptKey, how: RunStatus, k: AttemptKey)
    requires k != own
    ensures SameEntry(ev.attempts, Start(ev, own).attempts, k)
    ensures SameEntry(ev.attempts, Dispatch(ev, own).attempts, k)
    ensures SameEntry(ev.attempts, FinishAttempt(ev, own, how).attempts, k)
  {
  }

  /** Only the current attempt's entry of the session that moves can change. */
  lemma TouchAttempts(spec: SessionSpec, s: Sess, e: Event, spendSeen: bool, sh: Shared, k: AttemptKey)
    requires s.active.Some? ==> s.active.value == s.CurrentKey()
    requires k != s.CurrentKey()
    ensures SameEntry(sh.ev.attempts, Touch(spec, s, e, spendSeen, sh).ev.attempts, k)
  {
    match e
    case BeginAttempt(_, _, _) => BeginEntries(spec, s, e, spendSeen, sh, k);
    case Receive(r, _, _) => OtherEntries(AddRecord(sh.ev, r), s.CurrentKey(), Completed, k);
    case Abort(error) => OtherEntries(sh.ev, s.CurrentKey(), StatusOf(error), k);
    case _ =>
  }

  lemma BeginEntries(spec: SessionSpec, s: Sess, e: Event, spendSeen: bool, sh: Shared, k: AttemptKey)
    requires e.BeginAttempt? && k != s.CurrentKey()
    ensures SameEntry(sh.ev.attempts, Touch(spec, s, e, spendSeen, sh).ev.attempts, k)
  {
    OtherEntries(sh.ev, s.CurrentKey(), Failed, k);
    OtherEntries(Start(sh.ev, s.CurrentKey()), s.CurrentKey(), Failed, k);
    OtherEntries(Start(sh.ev, s.CurrentKey()), s.CurrentKey(), Cancelled, k);
    OtherEntries(Start(sh.ev, s.CurrentKey()), s.CurrentKey(), Stopped, k);
  }

  lemma OtherKeysStayBehind(spec: SessionSpec, o: Sess, s: Sess, e: Event, spendSeen: bool, sh: Shared)
    requires Position(spec, s) && o.id != s.id && KeysBehind(o, sh.ev.attempts)
    ensures KeysBehind(o, Touch(spec, s, e, spendSeen, sh).ev.attempts)
  {
    forall k | k in Touch(spec, s, e, spendSeen, sh).ev.attempts && k.sessionId == o.id
      ensures k in sh.ev.attempts
    {
      TouchAttempts(spec, s, e, spendSeen, sh, k);
    }
  }

  lemma OtherStaysAttached(spec: SessionSpec, concurrency: nat, o: Sess, s: Sess, e: Event, spendSeen: bool, sh: Shared)
    requires Attached(spec, concurrency, o, sh) && Attached(spec, concurrency, s, sh) && o.id != s.id
    requires Legal(spec, s, e)
    ensures Attached(spec, concurrency, o, Touch(spec, s, e, spendSeen, sh))
  {
    TouchRecords(spec, s, e, spendSeen, sh);
    StepRecords(spec, s, e);
    if o.active.Some? {
      TouchAttempts(spec, s, e, spendSeen, sh, o.active.value);
    }
    OtherKeysStayBehind(spec, o, s, e, spendSeen, sh);
    if e.Receive? {
      assert e.record.Key() == s.CurrentKey();
      FilterSnoc(sh.ev.records, e.record, OfSession(o.id));
    }
  }

  lemma ActiveIsRegistered(spec: SessionSpec, s: Sess, e: Event, spendSeen: bool, sh: Shared)
    requires Position(spec, s) && Legal(spec, s, e) && Step(spec, s, e).active.Some?
    ensures var k := Step(spec, s, e).active.value;
            var sh' := Touch(spec, s, e, spendSeen, sh);
            k in sh'.ev.attempts && sh'.ev.attempts[k] == AttemptInfo(Starting, true)
  {
  }

  lemma OwnKeysStayBehind(spec: SessionSpec, s: Sess, e: Event, spendSeen: bool, sh: Shared)
    requires Position(spec, s) && Legal(spec, s, e) && !Step(spec, s, e).phase.Closed?
    requires KeysBehind(s, sh.ev.attempts)
    ensures KeysBehind(Step(spec, s, e), Touch(spec, s, e, spendSeen, sh).ev.attempts)
  {
    var after := Touch(spec, s, e, spendSeen, sh).ev.attempts;
    forall k | k in after && k.sessionId == s.id && k != s.CurrentKey()
      ensures k in sh.ev.attempts
    {
      TouchAttempts(spec, s, e, spendSeen, sh, k);
    }
  }

  lemma OwnRecords(spec: SessionSpec, s: Sess, e: Event, spendSeen: bool, sh: Shared)
    requires Legal(spec, s, e) && Filter(sh.ev.records, OfSession(s.id)) == s.records
    ensures Filter(Touch(spec, s, e, spendSeen, sh).ev.records, OfSession(s.id)) == Step(spec, s, e).records
  {
    TouchRecords(spec, s, e, spendSeen, sh);
    StepRecords(spec, s, e);
    if e.Receive? {
      assert e.record.Key() == s.CurrentKey();
      FilterSnoc(sh.ev.records, e.record, OfSession(s.id));
    }
  }

  lemma SelfStaysAttached(spec: SessionSpec, concurrency: nat, s: Sess, e: Event, spendSeen: bool, sh: Shared)
    requires Attached(spec, concurrency, s, sh) && Legal(spec, s, e) && !Step(spec, s, e).phase.Closed?
    ensures Attached(spec, concurrency, Step(spec, s, e), Touch(spec, s, e, spendSeen, sh))
  {
    TouchRecords(spec, s, e, spendSeen, sh);
    StepKeepsInv(spec, s, e);
    OwnRecords(spec, s, e, spendSeen, sh);
    OwnKeysStayBehind(spec, s, e, spendSeen, sh);
    if Step(spec, s, e).active.Some? {
      ActiveIsRegistered(spec, s, e, spendSeen, sh);
    }
  }

  lemma SoundWithRecord(sessions: seq<SessionRecord>, records: seq<RequestRecord>, r: RequestRecord, maxAttempts: int)
    requires SessionsSound(sessions, records, maxAttempts)
    requires forall k :: 0 <= k < |sessions| ==> sessions[k].sessionId != r.sessionId
    ensures SessionsSound(sessions, records + [r], maxAttempts)
  {
    forall k | 0 <= k < |sessions|
      ensures Sound(sessions[k], Filter(records + [r], OfSession(sessions[k].sessionId)), maxAttempts)
    {
      FilterSnoc(records, r, OfSession(sessions[k].sessionId));
    }
  }

  lemma ClosedIsSound(spec: SessionSpec, t: Sess)
    requires Inv(spec, t) && t.phase.Closed?
    ensures Sound(t.Record(), t.records, spec.maxAttempts)
  {
  }

  lemma RecordKeepsSound(spec: SessionSpec, concurrency: nat, s: Sess, e: Event, spendSeen: bool, sh: Shared)
    requires Attached(spec, concurrency, s, sh) && Legal(spec, s, e)
    requires SessionsSound(sh.ev.sessions, sh.ev.records, spec.maxAttempts)
    ensures SessionsSound(sh.ev.sessions, Touch(spec, s, e, spendSeen, sh).ev.records, spec.maxAttempts)
  {
    TouchRecords(spec, s, e, spendSeen, sh);
    if e.Receive? {
      assert e.record.Key() == s.CurrentKey();
      SoundWithRecord(sh.ev.sessions, sh.ev.records, e.record, spec.maxAttempts);
    }
  }

  lemma ClosedAddsSound(spec: SessionSpec, s: Sess, e: Event, spendSeen: bool, sh: Shared)
    requires Inv(spec, s) && Filter(sh.ev.records, OfSession(s.id)) == s.records && Legal(spec, s, e)
    requires Step(spec, s, e).phase.Closed?
    ensures var t := Step(spec, s, e);
            Sound(t.Record(), Filter(Touch(spec, s, e, spendSeen, sh).ev.records, OfSession(t.Record().sessionId)),
                  spec.maxAttempts)
  {
    StepKeepsInv(spec, s, e);
    OwnRecords(spec, s, e, spendSeen, sh);
    ClosedIsSound(spec, Step(spec, s, e));
  }

  lemma TouchKeepsSessionsSound(spec: SessionSpec, concurrency: nat, s: Sess, e: Event, spendSeen: bool, sh: Shared)
    requires Attached(spec, concurrency, s, sh) && Legal(spec, s, e)
    requires SessionsSound(sh.ev.sessions, sh.ev.records, spec.maxAttempts)
    ensures var ev := Touch(spec, s, e, spendSeen, sh).ev; SessionsSound(ev.sessions, ev.records, spec.maxAttempts)
  {
    TouchRecords(spec, s, e, spendSeen, sh);
    RecordKeepsSound(spec, concurrency, s, e, spendSeen, sh);
    if Step(spec, s, e).phase.Closed? {
      ClosedAddsSound(spec, s, e, spendSeen, sh);
    }
  }

  lemma TouchKeepsIdsUsed(spec: SessionSpec, s: Sess, e: Event, spendSeen: bool, sh: Shared)
    requires IdsUsed(sh) && s.id in sh.used && Position(spec, s) && Legal(spec, s, e)
    ensures IdsUsed(Touch(spec, s, e, spendSeen, sh))
  {
    forall k | k in Touch(spec, s, e, spendSeen, sh).ev.attempts && k != s.CurrentKey()
      ensures k in sh.ev.attempts
    {
      TouchAttempts(spec, s, e, spendSeen, sh, k);
    }
    TouchRecords(spec, s, e, spendSeen, sh);
    StepRecords(spec, s, e);
    if e.Receive? {
      assert e.record.Key() == s.CurrentKey();
    }
  }

  /** The attempt that comes next was never recorded: turns and attempts only grow along a chain. */
  lemma {:induction false} NextIsNew(rs: seq<RequestRecord>, id: string, concurrency: int, maxAttempts: int,
                                     turn: int, attempt: int, i: nat)
    requires Chain(rs, id, concurrency, maxAttempts) && ComesNext(rs, turn, attempt) && i < |rs|
    ensures rs[i].turn < turn || (rs[i].turn == turn && rs[i].attempt < attempt)
  {
    if i < |rs| - 1 {
      ChainOrder(rs, id, concurrency, maxAttempts, i, |rs| - 1);
    }
  }

  lemma CurrentKeyIsNew(spec: SessionSpec, concurrency: nat, s: Sess, sh: Shared, i: nat)
    requires Attached(spec, concurrency, s, sh) && (s.phase.InFlight? || s.phase.AttemptTop?)
    requires i < |sh.ev.records|
    ensures sh.ev.records[i].Key() != s.CurrentKey()
  {
    var r := sh.ev.records[i];
    if r.sessionId == s.id {
      FilterMembers(sh.ev.records, OfSession(s.id));
      assert OfSession(s.id)(r) && r in s.records;
      var j :| 0 <= j < |s.records| && s.records[j] == r;
      NextIsNew(s.records, s.id, s.concurrency, spec.maxAttempts, s.turn, s.attempt, j);
    }
  }

  /** A completion: its identity is new, so the controller charges it once and never sees a conflict. */
  lemma CompletionIsCharged(spec: SessionSpec, concurrency: nat, s: Sess, r: RequestRecord, sh: Shared)
    requires Attached(spec, concurrency, s, sh) && s.phase.InFlight? && r.Key() == s.CurrentKey()
    requires BooksBalance(sh)
    ensures DistinctKeys(sh.ev.records + [r])
    ensures sh.quiet ==> r.Key() !in sh.acct.seen
    ensures sh.quiet && !HasNegativeTokens(r) ==>
              Observe(sh.acct, r).1 == Charged && Accounts(Observe(sh.acct, r).0, sh.ev.records + [r])
  {
    forall i | 0 <= i < |sh.ev.records|
      ensures sh.ev.records[i].Key() != r.Key()
    {
      CurrentKeyIsNew(spec, concurrency, s, sh, i);
    }
    if sh.quiet {
      UnseenKey(sh.acct.seen, sh.ev.records, r);
      if !HasNegativeTokens(r) {
        ObserveExtendsAccounts(sh.acct, sh.ev.records, r);
      }
    }
  }

  lemma HaltKeepsAccounts(a: Account, rs: seq<RequestRecord>)
    requires Accounts(a, rs)
    ensures Accounts(Halt(a), rs)
  {
  }

  lemma TouchKeepsBooks(spec: SessionSpec, concurrency: nat, s: Sess, e: Event, spendSeen: bool, sh: Shared, main: Main)
    requires Attached(spec, concurrency, s, sh) && Legal(spec, s, e) && Observes(sh, main, s, e, spendSeen)
    requires BooksBalance(sh)
    ensures BooksBalance(Touch(spec, s, e, spendSeen, sh))
  {
    TouchRecords(spec, s, e, spendSeen, sh);
    TouchAccount(spec, s, e, spendSeen, sh);
    if e.Receive? {
      CompletionIsCharged(spec, concurrency, s, e.record, sh);
      ObserveKeepsBelowCap(sh.acct, e.record);
    } else if sh.quiet {
      HaltKeepsAccounts(sh.acct, sh.ev.records);
    }
  }

  lemma ActKeepsAttached(l: Level, i: nat, e: Event, spendSeen: bool)
    requires LevelInv(l) && Allowed(l, Act(i, e, spendSeen))
    ensures var m := ActOn(l, i, e, spendSeen); AllAttached(l.spec, l.concurrency, m.workers, m.sh)
  {
    var s := l.workers[i].place.sess;
    var m := ActOn(l, i, e, spendSeen);
    forall j | 0 <= j < |m.workers| && m.workers[j].place.Busy?
      ensures Attached(l.spec, l.concurrency, m.workers[j].place.sess, m.sh)
    {
      if j == i {
        SelfStaysAttached(l.spec, l.concurrency, s, e, spendSeen, l.sh);
      } else {
        OtherStaysAttached(l.spec, l.concurrency, l.workers[j].place.sess, s, e, spendSeen, l.sh);
      }
    }
  }

  lemma ActKeepsIds(l: Level, i: nat, e: Event, spendSeen: bool)
    requires Allowed(l, Act(i, e, spendSeen)) && DistinctIds(l.workers)
    ensures DistinctIds(ActOn(l, i, e, spendSeen).workers)
  {
    StepRecords(l.spec, l.workers[i].place.sess, e);
  }

  lemma ActKeepsInv(l: Level, i: nat, e: Event, spendSeen: bool)
    requires LevelInv(l) && Allowed(l, Act(i, e, spendSeen))
    ensures LevelInv(ActOn(l, i, e, spendSeen))
  {
    var s := l.workers[i].place.sess;
    assert Attached(l.spec, l.concurrency, s, l.sh);
    TouchKeepsSessionsSound(l.spec, l.concurrency, s, e, spendSeen, l.sh);
    TouchKeepsIdsUsed(l.spec, s, e, spendSeen, l.sh);
    TouchKeepsBooks(l.spec, l.concurrency, s, e, spendSeen, l.sh, l.main);
    ActKeepsAttached(l, i, e, spendSeen);
    ActKeepsIds(l, i, e, spendSeen);
  }

  lemma StartKeepsInv(l: Level, i: nat, id: string, nTurns: nat)
    requires LevelInv(l) && Allowed(l, StartSession(i, id, nTurns))
    ensures LevelInv(Apply(l, StartSession(i, id, nTurns)))
  {
    var s := Fresh(id, l.concurrency, nTurns);
    FreshInv(l.spec, id, l.concurrency, nTurns);
    forall r | r in l.sh.ev.records
      ensures !OfSession(id)(r)
    {
      var k :| 0 <= k < |l.sh.ev.records| && l.sh.ev.records[k] == r;
    }
    FilterAllOrNone(l.sh.ev.records, OfSession(id));
    assert KeysBehind(s, l.sh.ev.attempts);
    assert Attached(l.spec, l.concurrency, s, Apply(l, StartSession(i, id, nTurns)).sh);
  }

  /** Moving one worker to a place outside a session keeps the invariant. */
  lemma MoveKeepsInv(l: Level, i: nat, place: Place)
    requires LevelInv(l) && i < |l.workers| && !place.Busy?
    ensures LevelInv(Move(l, i, place))
  {
  }

  lemma StopKeepsInv(l: Level)
    requires LevelInv(l)
    ensures LevelInv(l.(sh := l.sh.(acct := Halt(l.sh.acct))))
  {
    if l.sh.quiet {
      HaltKeepsAccounts(l.sh.acct, l.sh.ev.records);
    }
    var m := l.(sh := l.sh.(acct := Halt(l.sh.acct)));
    forall j | 0 <= j < |m.workers| && m.workers[j].place.Busy?
      ensures Attached(l.spec, l.concurrency, m.workers[j].place.sess, m.sh)
    {
      assert Attached(l.spec, l.concurrency, l.workers[j].place.sess, l.sh);
    }
  }

  lemma ApplyKeepsInv(l: Level, e: LevelEvent)
    requires LevelInv(l) && Allowed(l, e)
    ensures LevelInv(Apply(l, e))
    ensures Apply(l, e).concurrency == l.concurrency && Apply(l, e).spec == l.spec
  {
    match e
    case SetStop => StopKeepsInv(l);
    case StartSession(i, id, nTurns) => StartKeepsInv(l, i, id, nTurns);
    case Act(i, event, spendSeen) => ActKeepsInv(l, i, event, spendSeen);
    case Report(i, error, deadlinePassed) =>
      MoveKeepsInv(l, i, if error.Some? then Dead(error.value) else if deadlinePassed then Returned else Idle);
    case LeaveLoop(i) => MoveKeepsInv(l, i, Returned);
    case CancelIdle(i) => MoveKeepsInv(l, i, Dead(CancelledError));
    case ChildFailed(_) =>
    case CancelLevel =>
    case Join(_) => EndKeepsInv(l, Apply(l, e).main.status, Apply(l, e).main.raised);
  }

  lemma EndKeepsInv(l: Level, how: RunStatus, raised: Option<Raised>)
    requires LevelInv(l)
    ensures LevelInv(End(l, how, raised))
  {
    var m := End(l, how, raised);
    forall j | 0 <= j < |m.workers| && m.workers[j].place.Busy?
      ensures Attached(l.spec, l.concurrency, m.workers[j].place.sess, m.sh)
    {
      assert Attached(l.spec, l.concurrency, l.workers[j].place.sess, l.sh);
    }
  }

  lemma BeginInv(sh: Shared, concurrency: nat, spec: SessionSpec)
    requires SharedInv(sh, spec.maxAttempts)
    ensures LevelInv(Begin(sh, concurrency, spec))
  {
  }

  lemma {:induction false} RunKeepsLevelInv(l: Level, es: seq<LevelEvent>, m: Level)
    requires LevelInv(l) && IsRun(l, es, m)
    ensures LevelInv(m) && m.concurrency == l.concurrency && m.spec == l.spec
    decreases |es|
  {
    if es != [] {
      ApplyKeepsInv(l, es[0]);
      RunKeepsLevelInv(Apply(l, es[0]), es[1..], m);
    }
  }

  /**
   * In every reachable state of a level, the attempt a session is about to register was never registered
   * before: not by this session, not by another, not at an earlier level.
   */
  lemma StartNeverOverwrites(sh: Shared, concurrency: nat, spec: SessionSpec, es: seq<LevelEvent>, m: Level, i: nat)
    requires SharedInv(sh, spec.maxAttempts) && IsRun(Begin(sh, concurrency, spec), es, m)
    requires i < |m.workers| && m.workers[i].place.Busy? && m.workers[i].place.sess.phase.AttemptTop?
    ensures m.workers[i].place.sess.CurrentKey() !in m.sh.ev.attempts
  {
    BeginInv(sh, concurrency, spec);
    RunKeepsLevelInv(Begin(sh, concurrency, spec), es, m);
    NextIsUnregistered(m, i);
  }

  lemma NextIsUnregistered(l: Level, i: nat)
    requires LevelInv(l) && i < |l.workers| && l.workers[i].place.Busy?
    requires l.workers[i].place.sess.phase.AttemptTop?
    ensures l.workers[i].place.sess.CurrentKey() !in l.sh.ev.attempts
  {
    assert Attached(l.spec, l.concurrency, l.workers[i].place.sess, l.sh);
  }
}
