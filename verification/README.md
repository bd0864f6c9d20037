# Kneepoint verification model

Kneepoint is a closed-loop load generator with the analysis that reads its records. This project
models its protocols and its arithmetic in Dafny and proves what they promise.

`dafny verify dfyconfig.toml` checks everything.

## What is modelled

* **The generator under spend control.** One session is a machine over the straight-line pieces of
  `run_session`; a level is N such machines sharing the stop flag, the evidence and the spend
  controller; a ramp holds levels in turn. An adversary picks which worker moves, what each awaited
  call returns or raises, what every callback raises, and when cancellation or an outside stop strikes.
  The machines may also switch tasks at loop heads, so they have every run asyncio has, under the
  assumptions below, and more.
  `Session`, `Pool`, `Spend`, `Drain`, `Progress`, `Attempts`, `Ramp` and `RampSpend` hold the invariants
  and the results over all runs; `Budget` and `Lifecycle` hold the mutable controller and evidence,
  `SharedObjects` performs the runs on those objects, and `Session.RunSession` is the nested loop itself,
  proved against the machine. `SessionExits`, `LevelRuns`, `LevelEvidence`, `RampRuns` and `SpendReading`
  read every published result off the events of a run, without the machine: what can come next, how it
  ends, what it leaves behind.
* **The one-pass timing analysis** (`Timing`): a mutable accumulator per level, proved against a
  function of the level's own rows. `Continuity` says what its clock verdicts mean, `Law` bounds the
  Little's-law gap of a busy pool, `Aggregate` shows that enriching statistics later equals computing
  them up front, and `Percentile` is the inclusive percentile. `TimingReport` and `AggregateReading` read
  every published figure off the rows by counts and sums. Times, rates and money are exact reals.
* **Decisions over curves**: `Knee` (range, confidence, `find_knee`; Kneedle is any answer), `KneeOfRun`
  (the same over the records of a run) and `Scaling` (plateau, decline, estimate); `KneeReading` and
  `ScalingReading` say what each verdict means for the statistics it is computed from, and `WideBand` what a
  noise band of one or more does.
* **Smaller kernels**: `Retry`, `FetchLimiter` (the LanternDesk rate limiter under cancellation; `FetchRuns`
  reads its state off the schedule), `TraceContext` and `TraceReading` (identity framing and W3C headers),
  `StreamTurn` and `StreamReading` (the chunk loop and its record), and the fault log one process writes and
  another merges: `Json` (strings and values; `JsonReading` is their grammar), `FaultLines` (the text of the
  file), `FaultLog` and `FaultReading`.

Assumptions: session ids are fresh, the monotonic clock never goes back, `sleep` never wakes early,
arithmetic is exact, and the evidence a ramp starts from says nothing about its levels. A cancelled
request ends with that cancellation: closing its response does not raise an error of its own, which
`run_turn` (kneepoint/targets/openai_compatible.py:53-64) would turn into an outcome.

Where code and comment disagree: `knee_range` is documented (kneepoint/analyze/knee.py:144) as every
level the crossing could be under run noise. Its low end is exact, but only one level is added above,
so the comment is false in general; `Knee.RangeCanMissTheCrossing` gives a curve and
`Knee.RangeHoldsEveryCrossingIff` the exact condition. The fault log is documented
(kneepoint/chaos/proxy.py:51) to carry attribution across a process boundary; a name that spells one
character as two surrogates does not survive the file (`FaultLog.SplitPairChangesTheLog`), and
`FaultLog.LogSurvivesIff` is the exact condition. That takes a direct call of `record`: the proxy's own
fault names and its decoded session headers (kneepoint/chaos/proxy.py:159-171) hold no surrogates.

`scaling_report` raises a `KeyError` on some valid input: comparison rates a factor of two or more apart make
the noise band one or more, and then a level without a rate counts as part of the plateau
(kneepoint/analyze/scaling.py:128-138). `WideBand.WideBandCanRaise` is such an input and
`WideBand.LookupFailsIff` the exact condition.

## Model

| member | source | states |
|---|---|---|
| `Spend.KnownSpendIsBounded` | kneepoint/analyze/budget.py:67-126 | In every reachable state of a level with N workers, any interleaving, cancellation and observer failure, a cap M > 0 and charges of at most K: known spend is below M + N·K and the reported known overshoot is at most N·K |
| `RampSpend.RampSpendIsBounded` | kneepoint/generator/ramp.py:76-107 | The same bound in every reachable state of a whole ramp, with N the largest level |
| `RampSpend.ZeroCapRampDoesNothing` | kneepoint/analyze/budget.py:67-68 | With a cap of zero the ramp is over after one look at the stop flag: no attempt is ever registered, no record or session made |
| `Spend.BooksAgreeWithEvidence` | kneepoint/analyze/budget.py:113-138 | While no completion observer has raised: known spend is the plain sum of request costs over all evidence records, the total is unknown exactly when the incomplete-cost note fires, the coverage counters partition the attempts, attempt identities never repeat |
| `Spend.SpendOnlyMovesForward` | kneepoint/analyze/budget.py:70-111 | Whatever the interleaving, observer failures and malformed completions, no event of a level takes known spend back, lifts a stop or rewrites its first reason |
| `RampSpend.RampBooksBalance` | kneepoint/analyze/budget.py:75-138 | The same agreement, distinct identities and sound sessions in every reachable state of a whole ramp |
| `Spend.GeneratorNeverReplays` | kneepoint/analyze/budget.py:84-91 | While no completion observer has raised, a completion the generator can deliver is charged once, or refused for negative counts; the replay and conflict branches are never taken |
| `Budget.ObservedSpendController.constructor` | kneepoint/analyze/budget.py:48-68 | The new controller's state is the opened account, stopped at once for a cap of zero |
| `Budget.ObservedSpendController.Create` | kneepoint/analyze/budget.py:48-58 | Negative prices or caps are refused, and nothing else is |
| `Budget.ObservedSpendController.RequestStopNow` | kneepoint/analyze/budget.py:70-73 | Sets the stop and keeps the first reason |
| `Budget.ObservedSpendController.OnAttemptComplete` | kneepoint/analyze/budget.py:75-111 | The whole new state and the answer equal the accounting function, for new, replayed, conflicting and malformed completions |
| `Budget.StreamIsAccountedExactly` | kneepoint/analyze/budget.py:83-105 | After any stream of distinct nonnegative completions every published total is the plain sum or count over the stream |
| `Budget.StreamStopReason` | kneepoint/analyze/budget.py:106-111 | The stop and its reason are those of the earliest prefix that warrants one; unknown usage takes precedence |
| `Budget.RedeliveryChangesNothing` | kneepoint/analyze/budget.py:83-91 | For any stream of completions whatever, with replays, conflicting payloads and negative counts: the accounting is exactly that of the first acceptable delivery of each identity |
| `SpendReading.SnapshotIs` | kneepoint/analyze/budget.py:113-138 | After any stream of completions, with replays, conflicts and malformed ones, every published figure: the total is the sum of input·price_in + output·price_out per million over the completions that count, unknown when one of them lacks a count; the partition counts; the overshoot past the cap, never negative, none without a cap |
| `SpendReading.AnswerIs` | kneepoint/analyze/budget.py:83-99 | The answer to any completion after any stream: a counted one of the same attempt makes it a replay when equal and a conflict when not; otherwise it is rejected for a negative count, or charged |
| `SpendReading.StopIs` | kneepoint/analyze/budget.py:67-111 | Without a cap the controller never stops; with one it is stopped exactly when some prefix of the counted completions has a last one with a missing count or a sum at or past the cap (the empty one for a cap of zero), and the reason is that of the shortest such prefix, unknown usage first |
| `Budget.ObserveKeepsBelowCap` | kneepoint/analyze/budget.py:70-111 | Unstopped means strictly below the cap with no unknown usage; the stop and the first reason are sticky |
| `Budget.AccountsMeansExactTotals` | kneepoint/analyze/cost.py:56-66 | Exact accounting makes the total unknown exactly when the cost note reports incomplete usage, and the counters partition the attempts |
| `Budget.ChargeIsRequestCost` | kneepoint/analyze/cost.py:28-33 | The controller's charge, summed term by term, is the cost report's request cost |
| `Cost.UsagePartition` | kneepoint/analyze/budget.py:100-105 | Complete, partial and missing usage partition any record list, and known inputs and outputs count the rest |
| `SpendReading.NoteIs` | kneepoint/analyze/cost.py:56-66 | The incomplete-cost note is absent exactly when every completion reports both counts, else it names how many do not, how many there are, and the subtotal |
| `SpendReading.MoneyIsCost` | kneepoint/analyze/cost.py:28-41 | The total cost is the sum over the records of tokens times their price per million, a missing count costing nothing |
| `Budget.ObservedSpendController.Snapshot` | kneepoint/analyze/budget.py:113-138 | The published total and overshoot, computed from the fields |
| `Lifecycle.KeyTextInjective` | kneepoint/generator/lifecycle.py:22-24 | The attempt key text determines session, level, turn and attempt |
| `Lifecycle.RunEvidence.StartAttempt` | kneepoint/generator/lifecycle.py:46-47 | Registers one attempt and changes nothing else |
| `Lifecycle.RunEvidence.Finish` | kneepoint/generator/lifecycle.py:49-50 | Marks one registered attempt finished and changes nothing else |
| `SharedObjects.StepSession` | kneepoint/generator/session.py:96-150 | One stretch of a session, performed on the evidence and controller objects in place, leaves them holding what the machine says |
| `SharedObjects.HoldLevel` | kneepoint/generator/pool.py:43-112 | A level performed on the objects in place, for any schedule of its workers, ends with the machine's evidence and accounting (read off the events by `LevelEvidence.EvidenceIsTheRun`, held to its deadline by `LevelRuns.CompletedHeldToTheDeadline`); a level begun under a stop leaves them alone; while no completion observer has raised the controller's totals are sums over the evidence |
| `Pool.StartNeverOverwrites` | kneepoint/generator/lifecycle.py:46-47 | In every reachable state of a level, the attempt a session is about to register was never registered before, by any session at any level |
| `Attempts.AttemptsAreAccountedFor` | kneepoint/generator/lifecycle.py:28-33 | In every reachable state of a level, whatever raised, stopped or was cancelled: an attempt still starting is one some worker has in flight, the attempts finished as completed are exactly those with a record, and an ended level leaves none starting |
| `Attempts.RampLeavesNoneStarting` | kneepoint/generator/lifecycle.py:28-33 | However a ramp ends, no attempt is left starting and the completed attempts are exactly the recorded ones |
| `Session.EveryExitIsSound` | kneepoint/generator/session.py:83-150 | On every exit, at any await or callback: the transcript alternates with length twice the completed turns, completed turns are the ok records, attempts of a turn are bounded and in order, only the last turn tried can be unanswered, ok means every turn was answered |
| `Session.AttemptsAreNumbered` | kneepoint/generator/session.py:90-94 | Each turn's attempts are numbered 1, 2, 3 in the order they were made |
| `Session.NonFinalAttempts` | kneepoint/generator/session.py:122-126 | In every run of a session, up to any point and on any exit: an attempt that has a successor is either a failure without a status or with 429, 500, 502 or 503, followed by the next number within the allowed attempts, or an answer followed by attempt 1 of the next turn (that such a failure always gets its successor is `SessionExits.CompletedMeansAnsweredOrGivenUp`) |
| `SessionExits.CompletedMeansAnsweredOrGivenUp` | kneepoint/generator/session.py:17-126 | The converse: a session that closes as completed with no exception answered every turn, or its last record is not ok and was the last allowed attempt or has a status other than 429, 500, 502 and 503; so a retryable failure with attempts left is always tried again |
| `SessionExits.WhatCanComeNext` | kneepoint/generator/session.py:84-132 | After any legal events, the events a session can go on with are exactly those the nested loops wait for at the place the events alone determine |
| `SessionExits.RunPhase` | kneepoint/generator/session.py:84-139 | In every run the machine stands where the loops stand, as read off the events: retry wait after a retryable failure with attempts left, next attempt, think wait, next turn, or closed |
| `SessionExits.TranscriptIsWhatWasSaid` | kneepoint/generator/session.py:84-150 | On every exit the session record, field by field: the records are the answers received, the transcript is the prompts and accepted texts up to the last answer, one completed turn for each ok answer, ok when all turns were answered, and the named faults in order |
| `SessionExits.ExitFollowsTheEvents` | kneepoint/generator/session.py:133-150 | A session raises exactly what its last event raised and nothing raised before; its status is cancelled or failed exactly then, stopped if it saw the stop, else completed |
| `Session.RunSession` | kneepoint/generator/session.py:53-150 | The nested loops with their exception handler, for every complete run of outside events, publish exactly the machine's session, records, status and exception, and that session is sound; `SessionExits` says what those are in terms of the events |
| `Session.RunTurns` | kneepoint/generator/session.py:84-132 | The turn loop ends with the machine's variables |
| `Session.RunAttempts` | kneepoint/generator/session.py:90-126 | The attempt loop of one turn ends with the machine's variables and at the machine's place, which `SessionExits.RunPhase` reads off the events |
| `Session.SessionEnds` | kneepoint/generator/session.py:84-132 | A measure on turns, attempts and phase bounds the steps of any session by turns times (3·max_attempts + 3) |
| `Spend.PublishedSessionsAreSound` | kneepoint/generator/session.py:141-150 | In every reachable state of a level, every published session is sound against the attempts recorded under its id, however the workers interleave |
| `Drain.StopDrains` | kneepoint/generator/pool.py:72-91 | Once the stop is set: nothing more becomes dispatched, only requests already in flight (at most N) still complete, and the level takes at most 8N + 2 more steps |
| `Drain.CompletionThatStops` | kneepoint/analyze/budget.py:106-111 | When a completion is what sets the stop, at most N - 1 requests are in flight |
| `Drain.NeverStuck` | kneepoint/generator/pool.py:72-98 | A level that has not ended always has a next event that needs no outside stop or cancellation |
| `Drain.FailureJoins` | kneepoint/generator/pool.py:90-106 | After a failure or cancellation the remaining workers are joined within 10N + 2 steps and the level reports that failure, or what the exit of its client raised instead |
| `Pool.ApplyKeepsInv` | kneepoint/generator/pool.py:72-112 | Every event of a level keeps the shared invariant: attached sessions, distinct ids, balanced books, sound sessions |
| `Progress.CompletedHasSessions` | kneepoint/generator/pool.py:72-87 | When a level ends as completed every one of its workers has finished a session, and all of them are in the evidence (that they went on to the deadline is `LevelRuns.CompletedHeldToTheDeadline`) |
| `LevelRuns.CompletedHeldToTheDeadline` | kneepoint/generator/pool.py:49-87 | When a level ends completed without an exception, the last thing each of its workers did was to finish a session past the deadline, with no failing record callback |
| `LevelRuns.GoesOnUntilDeadline` | kneepoint/generator/pool.py:72-87 | In every reachable unstopped level without a failure, a worker that has just begun, or whose session ended before the deadline, can start a session with any fresh id and any number of turns |
| `LevelRuns.DeadlineEndsTheWorker` | kneepoint/generator/pool.py:86-87 | After a session that ended past the deadline the worker does nothing more |
| `LevelRuns.WhatCanComeNext` | kneepoint/generator/pool.py:72-98 | In every reachable state of a level an event is allowed exactly when the workers' loops and the gather, as read off the events so far, wait for it |
| `LevelRuns.WorkersRunSessions` | kneepoint/generator/pool.py:72-87 | In every reachable state of a level each worker stands where its own events leave it: ready, in the session its events make, reporting, returned or dead of a named exception |
| `LevelRuns.OutcomeOfLevel` | kneepoint/generator/pool.py:90-112 | A level is over exactly when its workers were joined; it raises what the exit of its client raised, else its first failure or cancellation, and its published status follows: cancelled, failed, stopped under the stop, else completed |
| `LevelRuns.NothingIsSwallowed` | kneepoint/generator/pool.py:90-102 | When any worker died of an exception the joined level raises |
| `LevelRuns.StoppedBeforeItBegan` | kneepoint/generator/pool.py:47-51 | A level begun under the stop has no events, starts no worker and changes nothing but the two statuses |
| `LevelEvidence.EvidenceIsTheRun` | kneepoint/generator/lifecycle.py:28-57 | In every reachable state of a level the evidence and the account are those its events say: records of the requests that returned, sessions that ended with their statuses, one entry per attempt begun with its last status, and the observed completions accounted in order |
| `Ramp.AmplificationIsBounded` | kneepoint/analyze/retry.py:36-55 | After any ramp run, in any interleaving, every level with records has a first attempt and an amplification between 1 and max_attempts |
| `Retry.RetryByLevel` | kneepoint/analyze/retry.py:27-55 | The dictionary pass returns, per level in increasing order, the counts of that level's records and sessions |
| `Retry.RowIs` | kneepoint/analyze/retry.py:41-54 | Every field of a level's row as counts over the records and sessions of that level: first attempts, retries, abandoned, amplification |
| `Retry.WorstIsWorst` | kneepoint/analyze/retry.py:58-61 | The worst level is the first of those with retries whose amplification no other level with retries exceeds; none exactly when nothing retried |
| `RampLevels.LevelsOf` | kneepoint/generator/ramp.py:38-42 | The list ends with stop whenever it exists; for start up to stop it exists exactly when the step is positive and then ascends strictly from start to stop |
| `RampLevels.LevelsAreEven` | kneepoint/generator/ramp.py:38-42 | For any three numbers: every level but a stop put behind them is the start plus its place times the step, none passes the stop and the next one would; an error exactly when that leaves no level |
| `Ramp.StatusesFormPrefix` | kneepoint/generator/ramp.py:76-107 | In every finished ramp run the levels with a status are a prefix of the list, all of it but possibly the last completed, a completed level of N workers has at least N sessions, and a run marked completed completed every level |
| `RampRuns.OutcomeOfRamp` | kneepoint/generator/ramp.py:77-107 | How every ramp ends: budget exceeded is reported exactly when a BudgetError was raised while a level was left, and is a return with status budget_exceeded; any other exception is raised with status failed or cancelled; without one the run is completed when the list is exhausted, else stopped, under the stop |
| `RampRuns.AfterALevel` | kneepoint/generator/ramp.py:83-107 | Leaving a level: its exception, or else the callback's, ends the ramp, a BudgetError marking run and level; without one the stop ends it, else it goes on with the level marked completed |
| `RampRuns.BeforeTheFirst` | kneepoint/generator/ramp.py:73-77 | A ramp begins between levels, nothing handed over, and changes nothing of the evidence but the status, which is running |
| `RampRuns.BeforeALevel` | kneepoint/generator/ramp.py:76-82 | At the head of the loop: no level left completes the run, the stop ends it, else exactly the next level of the list is entered |
| `RampRuns.EnteredLevel` | kneepoint/generator/ramp.py:83-92 | Inside a level, the ramp's state is a run of that level on its own events, begun on what the shared objects held between levels |
| `RampRuns.SlicesAreTheLevels` | kneepoint/generator/ramp.py:93-94 | The callback is handed, level by level, exactly the sessions and records that level's own events produced |
| `RampRuns.BetweenLevels` | kneepoint/generator/ramp.py:76-107 | Entering and leaving levels moves nothing of the evidence and the account but statuses |
| `Ramp.SlicesMakeTheResult` | kneepoint/generator/ramp.py:83-107 | However a ramp ends, the j-th slice handed to the level callback is the j-th level's, and its sessions and records all carry that level; on a normal return there is one slice for each level entered and they concatenate to the run's sessions and records |
| `Ramp.AcceptedRampReachesStop` | kneepoint/generator/ramp.py:38-107 | For an accepted start, stop and step, a run marked completed held both the start and the stop level to their end with a session per worker, and the callback saw start first and stop last |
| `RampExample.CompletedRampExists` | kneepoint/generator/ramp.py:76-107 | A capped ramp of one level with one answered request reaches a normal return, marked completed, with a charged record: the results above are about runs that exist |
| `Timing.LevelTiming.InspectRecord` | kneepoint/analyze/timing.py:54-97 | The in-place visit of one record is the visit function on the accumulator's value |
| `Timing.LevelTiming.Conclude` | kneepoint/analyze/timing.py:119-206 | A level's report is the report function of its accumulator, whose every field `TimingReport` reads off the rows |
| `Timing.AnalyzeTiming` | kneepoint/analyze/timing.py:100-225 | The pass over interleaved records, with one mutable accumulator per level, ends with exactly the report each level's own records determine; `TimingReport.SteadyReport` says what that report is |
| `TimingReport.SteadyReport` | kneepoint/analyze/timing.py:150-206 | For a level held to its end, over any records: completions, rates, mean response, Little's-law figures, count resolution, gap, threshold and verdict as counts and sums of the level's rows in the window from a third to four fifths of the hold; suspected_stall holds exactly when a gap is published and |c·W/k - R/k - Z·t/k| > max(0.05, 0.05·R/k, 2·c·W/k²·resolution) |
| `TimingReport.StalledWorkerIsMarked` | kneepoint/analyze/timing.py:193-206 | A one-worker level that sends nothing inside the window for longer than one response, its think times and the threshold for each completion together is always marked |
| `TimingReport.MarkedIffUnaccounted` | kneepoint/analyze/timing.py:193-206 | A judged level with a known think time is marked exactly when the user-seconds of the window that responses and think times do not account for exceed the threshold times the completions |
| `TimingReport.OtherReports` | kneepoint/analyze/timing.py:138-161 | The remaining reports: over the whole span when no hold time is known; no scaling or steady figure for a level that was not completed, has no positive hold, or ends before its window does |
| `TimingReport.RawReport` | kneepoint/analyze/timing.py:132-137 | The clock used, and the raw throughput: rows per second from the first start to the last end, none for an empty span |
| `TimingReport.SpanExists` | kneepoint/analyze/timing.py:61-70 | Every level with rows has a first start and a last end |
| `TimingReport.BoundReport` | kneepoint/analyze/timing.py:209-224 | The asymptotic bound of a level: its users over the mean response of the lowest level, and the ratio to the observed rate |
| `Timing.InterleavingIsIrrelevant` | kneepoint/analyze/timing.py:112-118 | Two record lists with the same per-level order have the same levels and the same reports |
| `Timing.OnePassTotals` | kneepoint/analyze/timing.py:57-60 | The accumulator's counts and response total are those of the rows |
| `Timing.OnePassEarliest` | kneepoint/analyze/timing.py:63 | The accumulator's earliest wall start is the least start of the rows |
| `Timing.OnePassLatest` | kneepoint/analyze/timing.py:64 | The accumulator's latest wall end is the greatest end of the rows |
| `Timing.MonotonicNeedsAllRows` | kneepoint/analyze/timing.py:132-135 | The monotonic clock is used exactly when there are rows and each carries a monotonic start |
| `Timing.LevelTiming.CountSteady` | kneepoint/analyze/timing.py:162-173 | Steady completions, successes, thinking completions and response total are the counts and sum over the half-open window |
| `Timing.LevelTiming.CountShifted` | kneepoint/analyze/timing.py:185-192 | The count resolution is half the spread of the five shifted counts, at least one |
| `Continuity.PublishedAnomalyIff` | kneepoint/analyze/timing.py:119-131 | A level's published clock anomaly, read off its own rows: every row carries both clocks and two offsets differ by over a second, or a turn started late, or the pool stalled, and nothing else |
| `Continuity.PublishedGapsAre` | kneepoint/analyze/timing.py:119-131 | Each clock verdict published on its own, and the longest gap: the greatest of the waits of late turns and of the idle pool beyond what think time explains |
| `Continuity.ClockStepIff` | kneepoint/analyze/timing.py:127-130 | The clock-step flag is on exactly when all rows carry both clocks and two of them have offsets more than a second apart |
| `Continuity.ReportedGapIff` | kneepoint/analyze/timing.py:119-126 | The continuity flag is on exactly when a turn started more than a second after its session's previous answer and any think time, or a first attempt that long after everything before it had ended |
| `Continuity.PreviousIsLatest` | kneepoint/analyze/timing.py:90-92 | The memory of a session is its latest row so far: when it ended, its turn, whether it was answered |
| `Continuity.PoolGapIsLongest` | kneepoint/analyze/timing.py:85-89 | The pool gap kept is the longest wait of a first attempt after the latest end known before it |
| `Law.BusyPoolGapIsSmall` | kneepoint/analyze/timing.py:179-206 | N workers never idle across the steady window, whatever they do outside it, their responses there up to Rmax, no think time: the published law gap times the completions is at most N·Rmax, and the gap at most Rmax/2 |
| `Law.SteadyWorkerIsNeverSuspected` | kneepoint/analyze/timing.py:193-206 | One worker never idle across the steady window, whose responses completing in it all take the same time, is never marked a suspected stall, whatever it does outside the window |
| `Law.SuchAPoolExists` | kneepoint/analyze/timing.py:155-206 | A concrete one-worker level, with a slow answer and a pause before the window, meets every condition of the two results above and publishes a gap |
| `Law.WorkerTelescope` | kneepoint/analyze/timing.py:165-171 | One busy worker's counted responses telescope to the window, give or take one response at the edges |
| `Aggregate.EnrichLaterIsEnrichNow` | kneepoint/analyze/knee.py:213-340 | Enriching statistics later with metadata equals computing them with it up front, on every timing field, contamination flag and injector entry, whatever they were first computed with |
| `Aggregate.CopyTiming` | kneepoint/analyze/knee.py:321-333 | The fields copied by name are together the whole timing report: nothing of the earlier one stays |
| `Aggregate.AggregateRecords` | kneepoint/analyze/knee.py:228-300 | The level loop with its running contamination flag returns one row per level, in increasing order, as the specification says |
| `Aggregate.EnrichLoop` | kneepoint/analyze/knee.py:317-340 | The enriching loop returns the copied rows, or the first level whose timing lookup fails |
| `Aggregate.TaintSoFar` | kneepoint/analyze/knee.py:238-243 | The running flag is on exactly when this level or one below it abandoned a request or shows a clock anomaly |
| `Aggregate.RowsAreOrdered` | kneepoint/analyze/knee.py:244-263 | A level has percentiles exactly when it has successes, then p50 <= p95 <= p99; contamination only travels forward |
| `AggregateReading.RowsRead` | kneepoint/analyze/knee.py:228-300 | One row per level with records, in increasing order: count, successes, abandoned, error rate; p50, p95 and p99 of the answered response times, p50 and p95 of ttft, p50 of tpot, p50 of the mean and p99 of the tail chunk gap (each on the straight line between neighbours of its ascending samples, none without any); its timing; contaminated exactly when this level or one below abandoned a request or shows a clock anomaly |
| `AggregateReading.NothingToAdd` | kneepoint/analyze/knee.py:309-316 | Without metadata, with rows that carry it already, or without raw records, the statistics come back as they are |
| `AggregateReading.AnyStatisticsAreEnriched` | kneepoint/analyze/knee.py:314-340 | Any other statistics, wherever they come from: every row sorted by level, with the timing of all carried records, and contaminated by any row up to it; or the first level without a record as the failing lookup |
| `AggregateReading.EnrichedTimingIs` | kneepoint/analyze/knee.py:317-321 | That timing is the report of the carried records under the metadata's hold and think times |
| `Aggregate.EnrichRun` | kneepoint/analyze/knee.py:303-340 | The function with its early returns |
| `Percentile.PctWithinRange` | kneepoint/analyze/knee.py:206-210 | The inclusive percentile lies within the range of the samples |
| `Percentile.PctOrderFree` | kneepoint/analyze/knee.py:206-210 | It does not depend on the order of the samples |
| `Percentile.PctIs` | kneepoint/analyze/knee.py:206-210 | With m gaps between the samples in ascending order it lies p·m hundredths of a gap along, on the straight line between the two samples there |
| `Percentile.PctMonotoneInSamples` | kneepoint/analyze/knee.py:206-210 | It is monotone in every sample |
| `Percentile.PctMonotoneInP` | kneepoint/analyze/knee.py:206-210 | It is monotone in p |
| `Percentile.Place` | kneepoint/analyze/knee.py:209-210 | The two order statistics it blends are always in range |
| `Knee.LowEndIsExact` | kneepoint/analyze/knee.py:495-508 | No re-reading that keeps every level outside the band on its side of 2.0 first crosses below knee_range[0], and some re-reading first crosses exactly there |
| `Knee.FirmKneeStaysInRange` | kneepoint/analyze/knee.py:495-508 | When the deciding ratio is outside the band, every re-reading crosses, and inside knee_range |
| `Knee.RangeHoldsEveryCrossingIff` | kneepoint/analyze/knee.py:496-508 | knee_range holds the crossing of every re-reading exactly when the knee is firm, or the next level is firmly past 2.0, or everything beyond the next level is firmly below it |
| `Knee.RangeCanMissTheCrossing` | kneepoint/analyze/knee.py:144 | A concrete curve whose re-reading crosses outside knee_range, against the field's comment |
| `Knee.HighConfidenceIff` | kneepoint/analyze/knee.py:412-535 | Confidence is high exactly when: three usable levels and no interior gap, a first crossing that is not the last usable level and lies past the band, everything below it short of the band, Kneedle silent, refused or in agreement, nothing contaminated |
| `Knee.FindKneeIsLowestCrossing` | kneepoint/analyze/knee.py:538-554 | find_knee answers exactly when there is a knee, with the lowest level the crossing can fall on (when there is a knee at all is `KneeReading.KneeIsFirstDoubling`) |
| `KneeReading.KneeIsFirstDoubling` | kneepoint/analyze/knee.py:369-510 | For any statistics: there is a knee exactly when three levels are eligible, no ineligible level lies strictly between the lowest and highest eligible ones, and some eligible p95 is at least 2.0 times the least eligible p95, or that least is zero; it is the lowest such level, and a lower bound exactly when it is the highest eligible one |
| `KneeReading.RangeIs` | kneepoint/analyze/knee.py:495-508 | The knee range: its low end is the lowest level within 15 % of the threshold below the knee, or the knee; its high end is the next eligible level when the knee itself is within 15 % and not the highest, else the knee |
| `KneeReading.ConfidenceIs` | kneepoint/analyze/knee.py:477-527 | High exactly for a knee that is not the highest eligible level, is not within 15 % of the threshold, has no such level below it, is not contradicted by Kneedle, and with nothing contaminated; low for any other knee; without a knee low exactly when some eligible level is within 15 % |
| `KneeReading.RatiosAre` | kneepoint/analyze/knee.py:369-427 | The published curve and near levels, and the contaminated levels, read off the statistics |
| `KneeReading.VerdictsAre` | kneepoint/analyze/knee.py:343-456 | Kneedle's answer is kept unless it is the highest eligible level; agreement is equality when both exist |
| `KneeReading.FindKneeIsLowEnd` | kneepoint/analyze/knee.py:538-554 | find_knee answers exactly when there is a knee, with the low end of that range |
| `Knee.FirstCrossing` | kneepoint/analyze/knee.py:392 | The crossing is the first reading at or past the threshold |
| `KneeOfRun.RunKneeIsLowestCrossing` | kneepoint/analyze/knee.py:551-554 | The same for the statistics of any record list, whose levels are distinct |
| `KneeOfRun.TaintedRunIsNeverHigh` | kneepoint/analyze/knee.py:521-527 | One abandoned request or clock anomaly at any level of a run, and its knee is never reported as high confidence |
| `Scaling.ReachedIff` | kneepoint/analyze/scaling.py:113-138 | For a band below 1: reached exactly when the last two levels are flat without decline and at least two trailing levels keep within the band of the peak; plateau_levels is that longest run, (1 - band)·peak <= x_max <= peak, and no lookup fails (that x_max is the median is `ScalingReading.ReportIs`) |
| `ScalingReading.ReportIs` | kneepoint/analyze/scaling.py:89-140 | For any statistics with a usable level and a band below 1, all verdict fields over the sorted levels: peak, declined exactly when the tail fell or both tail rates are below the band of the peak, reached exactly when the tail is flat and two trailing levels keep within the band, and then x_max is the median of the plateau's rates: at most half below, at most half above, one of them or the middle of two with none strictly between |
| `ScalingReading.MedianIsMedian` | kneepoint/analyze/scaling.py:136-138 | For any nonempty rates, the estimate has at most half of them below and at most half above; it is one of them when their number is odd, else half the sum of two with none strictly between |
| `ScalingReading.NothingUsable` | kneepoint/analyze/scaling.py:95-120 | Without a usable level there is no peak, no plateau and no estimate, and the status is not reached |
| `WideBand.LookupFailsIff` | kneepoint/analyze/scaling.py:128-138 | The report raises a lookup error exactly when the noise band is one or more, the last two levels are usable and flat, and some level of the ramp is not usable |
| `WideBand.WideReport` | kneepoint/analyze/scaling.py:113-138 | The whole verdict for a band of one or more: no decline; without a flat tail not reached; with one every level is on the plateau and x_max is the median of all rates, or the lookup of the lowest level that is not usable fails |
| `WideBand.WideBandCanRaise` | kneepoint/analyze/scaling.py:128-138 | Concrete statistics and comparison rates of 10 and 30 on which the report raises |
| `ScalingReading.BaselinesAreChecked` | kneepoint/analyze/scaling.py:102-104 | The report refuses exactly a comparison rate that is not positive |
| `Scaling.DeclinedMeans` | kneepoint/analyze/scaling.py:121-127 | Declined means the peak level is not the last, the signed change is negative and the estimate is the peak |
| `Scaling.UnitsDoNotMatter` | kneepoint/analyze/scaling.py:89-138 | Multiplying all rates and comparison rates by a positive factor keeps the verdict and scales the estimate |
| `Scaling.Decide` | kneepoint/analyze/scaling.py:113-138 | The decision with its backward loop computes the specified verdict, which `ScalingReading.ReportIs` reads off the statistics |
| `Scaling.WalkBack` | kneepoint/analyze/scaling.py:129-133 | The backward loop returns the trailing run at or above the bound |
| `Scaling.PeakIsGreatest` | kneepoint/analyze/scaling.py:101-116 | No usable rate exceeds the peak level's |
| `FetchLimiter.GrantsAreSpaced` | examples/multi-agent/app.py:346-351 | Under every schedule of waiters, timeouts and cancellations, consecutive grants are at least 1/rate apart |
| `FetchLimiter.WindowHoldsFewGrants` | examples/multi-agent/app.py:346-351 | Any window of length T holds at most T·rate + 1 grants |
| `FetchLimiter.CancelledWaiterConsumesNothing` | examples/multi-agent/app.py:339-351 | A waiter cancelled in the queue or asleep consumes no grant, leaves the next grant time alone and frees the lock it held |
| `FetchLimiter.HolderSleepsAtMostOneGap` | examples/multi-agent/app.py:348-350 | Whoever takes the lock sleeps at most 1/rate, until the next grant time |
| `FetchLimiter.BooksBalance` | examples/multi-agent/app.py:333-401 | In every reachable state calls, errors, calls in flight and grants are the counts they name, a call refused for want of an HTTP client being a call and not an error; at most one call sleeps with the lock, none when the rate is zero |
| `FetchRuns.ScheduleTells` | examples/multi-agent/app.py:333-401 | The whole state after any schedule, read off the events: who waits, sleeps with the lock, is served or has left; when each call got through and the next may; calls, errors, queued and active counts |
| `FetchRuns.WhatMayHappen` | examples/multi-agent/app.py:333-401 | After any schedule, the events that can follow are exactly those the code waits for |
| `FetchRuns.ClockTells` | examples/multi-agent/app.py:346-351 | The clock after any schedule: time passed and sleeps slept |
| `FetchLimiter.WaitersCanMove` | examples/multi-agent/app.py:346-351 | While a call waits, the holder can wake or a queued call can take the free lock |
| `FetchLimiter.Serve` | examples/multi-agent/app.py:333-401 | Any schedule of calls, performed on the fields in place, leaves them as the machine says |
| `FetchLimiter.Runtime.TakeLock` | examples/multi-agent/app.py:346-351 | Taking the lock either passes at once or sleeps with the lock held, as the machine says |
| `FetchLimiter.Runtime.PassLimiter` | examples/multi-agent/app.py:351-353 | Passing books the next grant time, frees the lock and starts the service |
| `FetchLimiter.Runtime.Leave` | examples/multi-agent/app.py:384-401 | Leaving from any place releases exactly what was held and counts the error |
| `TraceContext.IdentityRoundTrip` | kneepoint/targets/trace_context.py:22-25 | The identity text parses back to its five fields, for ids with any quotes, commas, backslashes or control characters |
| `TraceContext.IdentityInjective` | kneepoint/targets/trace_context.py:22-25 | Different attempts have different identity bytes |
| `TraceContext.HashInputsAreDistinct` | kneepoint/targets/trace_context.py:26-27 | Trace and span digests never hash the same bytes, and those of different attempts never do |
| `TraceContext.TraceparentIsValid` | kneepoint/targets/trace_context.py:28-33 | For any digest: version 00, a nonzero 32-digit trace id, a nonzero 16-digit span id, sampled flag, 55 characters |
| `TraceReading.ContextIs` | kneepoint/targets/trace_context.py:17-42 | For any digest, all four texts written out: the identity as a JSON array without spaces, the two hash domains, the ids cut at 32 and 16 digits with an all-zero one replaced by the least nonzero one, the header, and the five labels percent-encoded with upper-case digits |
| `TraceContext.BaggageRoundTrip` | kneepoint/targets/trace_context.py:34-41 | Splitting the header at commas and percent-decoding returns exactly the five labels |
| `TraceContext.BaggageIsClean` | kneepoint/targets/trace_context.py:41 | The header holds only unreserved characters, percent signs and its separators |
| `TraceContext.TextRoundTrip` | kneepoint/targets/trace_context.py:22-25 | Every string survives JSON escaping |
| `TraceContext.QuoteRoundTrip` | kneepoint/targets/trace_context.py:41 | Every string survives percent-encoding of its UTF-8 bytes |
| `StreamTurn.ReadStream` | kneepoint/targets/openai_compatible.py:146-167 | The chunk loop computes the reading function: content times, gaps, pieces, usage, and whether a line raised |
| `StreamTurn.LoopReadsContents` | kneepoint/targets/openai_compatible.py:146-167 | The loop's variables are what the content deltas before the stop say, whatever else is interleaved |
| `StreamTurn.TimesAddUp` | kneepoint/targets/openai_compatible.py:155-162 | ttft_ms plus the inter-chunk gaps is the last content chunk's elapsed time, at most total_ms |
| `StreamTurn.MeanSpreadsTheGaps` | kneepoint/targets/openai_compatible.py:177 | itl_mean_ms is the time from first to last content chunk over the number of gaps |
| `StreamTurn.InterChunkFields` | kneepoint/targets/openai_compatible.py:173-178 | chunk_count counts the content chunks; the inter-chunk fields are null exactly when it is below 2, ttft_ms exactly when it is 0 |
| `StreamTurn.TailGapWithinRange` | kneepoint/targets/openai_compatible.py:31-35 | itl_p99_ms lies within the range of the recorded gaps |
| `StreamTurn.TextIsContent` | kneepoint/targets/openai_compatible.py:163-180 | The text is the concatenation of the content deltas before the end marker |
| `StreamTurn.SilentLinesDoNotMatter` | kneepoint/targets/openai_compatible.py:154-163 | Comments and usage-only chunks anywhere change neither times nor text |
| `StreamTurn.NothingAfterDone` | kneepoint/targets/openai_compatible.py:150-151 | Nothing after the end marker is read |
| `StreamTurn.FirstContentSurvives` | kneepoint/targets/openai_compatible.py:146-208 | However a stream ends - closed, at the wall, on a gap or broken - its record keeps the elapsed time of the first content chunk that arrived, and is abandoned exactly when we gave up on it |
| `StreamReading.RecordIs` | kneepoint/targets/openai_compatible.py:111-208 | The record of every exchange, field by field, for every status, retry header, line sequence and ending: the times of the nonempty content deltas, their mean and tail gap, the last usage report, the text, or the failure with what is known of it |
| `FaultLog.Log.Record` | kneepoint/chaos/proxy.py:67-81 | Recording updates counts and session list as specified and appends exactly the JSON line of the fault to the text of the file; an empty session id counts as none |
| `FaultLog.Log.Load` | kneepoint/chaos/proxy.py:83-96 | Loading splits the text into lines and replays exactly those that parse to an object with a fault, whatever JSON values its fault and session are; it raises exactly when one of those cannot be a dictionary key |
| `FaultReading.LineSays` | kneepoint/chaos/proxy.py:87-95 | What any line of the file says: skipped exactly when it is no JSON object with a fault; else its fault and session as dictionary keys (equal numbers and truth values are one key), the session none when absent or false, and an error exactly when a list or object would have to be a key |
| `FaultReading.TextSays` | kneepoint/chaos/proxy.py:87-96 | A text loads unless one of its lines raises, to the entries of its lines in order |
| `FaultReading.LinesAre` | kneepoint/chaos/proxy.py:87 | Any text is its lines with a boundary behind each, only the last perhaps without one; no boundary character is inside a line and a carriage return and line feed are never cut apart |
| `FaultReading.LineIs` | kneepoint/chaos/proxy.py:74-76 | The line written for a fault, character by character |
| `FaultReading.NumberIs` | kneepoint/chaos/proxy.py:91 | A number's text has the value its digits, point and exponent spell |
| `JsonReading.ParsesIff` | kneepoint/chaos/proxy.py:91 | For every text and value: the reader accepts the text with that value exactly when it is a document of the JSON grammar (RFC 8259 with NaN and the infinities), white space around it, that means this value; the last of repeated keys wins and split surrogate pairs are joined |
| `FaultLog.RecordThenLoad` | kneepoint/chaos/proxy.py:67-96 | The text written by any sequence of records, for arbitrary fault and session strings, loads to the log of the same entries, split surrogate pairs joined |
| `FaultLog.LogSurvivesIff` | kneepoint/chaos/proxy.py:51-52 | The loaded log is the recorded one if and only if no fault and no nonempty session id spells a surrogate pair out as two code points |
| `FaultLog.SplitPairChangesTheLog` | kneepoint/chaos/proxy.py:74-81 | A concrete fault name, passed to `record` directly, that comes back from the file as another name |
| `Json.StringRoundTrip` | kneepoint/chaos/proxy.py:74-76 | Every Python string, lone surrogates included, written with ASCII escapes and read back is itself, with each high surrogate and the low one behind it joined |
| `FaultLines.LineIsPrintable` | kneepoint/chaos/proxy.py:74-81 | A written line is printable ASCII, so none of the boundaries `splitlines` knows is inside it |
| `FaultLines.LineReads` | kneepoint/chaos/proxy.py:87-95 | A written line parses as a JSON object whose fault and session are the recorded ones |
| `FaultLines.LinesAppend` | kneepoint/chaos/proxy.py:80-87 | Appending to whole lines never changes how the text before splits |
| `FaultLines.FileReads` | kneepoint/chaos/proxy.py:74-95 | The concatenated text of any records splits and parses to those entries in order |
| `FaultLines.NoiseIsSkipped` | kneepoint/chaos/proxy.py:87-94 | A blank or unreadable line put between any two lines of any file changes nothing |
| `FaultLines.TornTailIsSkipped` | kneepoint/chaos/proxy.py:77-81 | A crash in the middle of an append, at any character, costs that record at most, and only when more than the newline is missing |
| `FaultLog.TallyMeans` | kneepoint/chaos/proxy.py:67-72 | Counts, per-session lists and the unattributed count, read off the recorded faults alone |
| `FaultLog.CountsAddUp` | kneepoint/chaos/proxy.py:67-72 | The counts by type add up to the faults recorded |
| `FaultLog.MergeInto` | kneepoint/chaos/proxy.py:98-114 | Merging leaves the log alone, counts as specified, and each session's list is its old list followed by its logged faults when it is the session its id stands for, otherwise unchanged |
| `FaultReading.SessionsGain` | kneepoint/chaos/proxy.py:98-114 | After a merge each session's list is what it was, followed by the names of the faults recorded under its id in order when it is the last session with that id, and by nothing otherwise |
| `FaultReading.MergeReports` | kneepoint/chaos/proxy.py:98-114 | The nameless faults, and how many of the run's sessions some recorded fault names |
| `FaultLog.MergeConserves` | kneepoint/chaos/proxy.py:98-114 | Attributed, unmatched and unattributed add up to the faults recorded; the counts by type are exact and add up to the attributed |

## Left out

- HTTP transport, proxy forwarding, the demo server, the command line, YAML loading, validation messages and HTML rendering.
- Kneedle's internals, SHA-256, uuid and random draws: an arbitrary answer, an arbitrary digest of the right shape, fresh ids and arbitrary outcomes.
- Float and Decimal rounding (also of JSON numbers used as dictionary keys), non-finite numbers in records and the finite-spend check of the controller.
- The injector monitor and the local resource sampler a level starts, a second cancellation while the level is being cancelled, and failures on entering the HTTP client; a failing exit of the client is modelled.
- How long `wait_or_stop` waits: only that a retry or think wait ends or is cancelled.
- Observers and callbacks that set the stop flag do so as a separate event of the level machine.
- Session wall times and the `total_ms` of sessions; turn counts are any number from one up.
- A lone surrogate in a run or session id of the trace context, on which UTF-8 encoding raises: there strings are sequences of Unicode scalar values.
- `scaling_report` beyond the plateau decision: per-level rows, efficiency, idle and busy cores, hypotheses, `r0_s` and `n_star`.
- Notes, display strings and headlines of the knee report.
- The model and search semaphores of the LanternDesk demo: capacity checks that would only add easy members.
- The fault log's file durability, write lock and UTF-8 decoding errors; JSON numbers of thousands of digits and nesting that exhausts the stack. The time stamp of a record is a parameter, given as the number it is written as.
- HTTP-level details of `run_turn` (headers, bodies, error texts): the exchange is given as parsed lines with clock readings.
- SLO evaluation, resolution summaries, error tables, resilience rates, `CostMeter`, corpus sampling, judges and host CPU sampling: short folds or branch checks.
- A claim that healthy pools of more than one worker are never flagged: the shifted-window resolution is a heuristic.
