/** The records of kneepoint/collect/schemas.py that the modelled code reads and writes. */
module Records {
  import opened Basics

  /** Identity of one attempt; `AttemptStart.key` renders the same four fields. */
  datatype AttemptKey = AttemptKey(sessionId: string, concurrency: int, turn: int, attempt: int)

  datatype RequestRecord = RequestRecord(
    sessionId: string,
    concurrency: int,
    turn: int,
    attempt: int,
    ok: bool,
    statusCode: Option<int>,
    inputTokens: Option<int>,
    outputTokens: Option<int>,
    fault: Option<string>,
    abandoned: bool,
    startedAt: real,
    startedMonotonic: Option<real>,
    totalMs: real,
    ttftMs: Option<real>,
    itlMeanMs: Option<real>,
    itlP99Ms: Option<real>,
    chunkCount: Option<int>)
  {
    function Key(): (key: AttemptKey) {
      AttemptKey(sessionId, concurrency, turn, attempt)
    }

    function Seconds(): (result: real) {
      totalMs / 1000.0
    }

    /** Time per output token; absent when content, usage or decode time is missing. */
    function TpotMs(): (result: Option<real>) {
      if ttftMs.None? || outputTokens.None? || outputTokens.value == 0 then None
      else if totalMs - ttftMs.value > 0.0 then Some((totalMs - ttftMs.value) / outputTokens.value as real)
      else None
    }
  }

  datatype Role = User | Assistant

  datatype Message = Message(role: Role, content: string)

  datatype SessionRecord = SessionRecord(
    sessionId: string,
    concurrency: int,
    turnsRequested: nat,
    turnsCompleted: nat,
    ok: bool,
    faults: seq<string>,
    transcript: seq<Message>)

  datatype RunStatus = Running | Completed | Stopped | Failed | Cancelled | BudgetExceeded

  /** Predicates on records, each written once so that counts and filters over them agree. */
  function IsOk(): (p: RequestRecord -> bool) {
    (r: RequestRecord) => r.ok
  }

  function IsFirstAttempt(): (p: RequestRecord -> bool) {
    (r: RequestRecord) => r.attempt == 1
  }

  function IsAbandoned(): (p: RequestRecord -> bool) {
    (r: RequestRecord) => r.abandoned
  }

  function OfSession(id: string): (p: RequestRecord -> bool) {
    (r: RequestRecord) => r.sessionId == id
  }

  function OfLevel(c: int): (p: RequestRecord -> bool) {
    (r: RequestRecord) => r.concurrency == c
  }

  function FirstOfLevel(c: int): (p: RequestRecord -> bool) {
    (r: RequestRecord) => r.concurrency == c && r.attempt == 1
  }
}
