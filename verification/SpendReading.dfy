/** kneepoint/analyze/budget.py: what the spend controller publishes, read off the completions it was told of. */
module SpendReading {
  import opened Basics
  import opened Records
  import opened Cost
  import opened Budget

  // ----- the completions that count

  predicate SameAttempt(r: RequestRecord, s: RequestRecord) {
    r.sessionId == s.sessionId && r.concurrency == s.concurrency && r.turn == s.turn && r.attempt == s.attempt
  }

  /** A token count was reported and it is below zero; zero is fine. */
  predicate ReportsNegative(r: RequestRecord) {
    match (r.inputTokens, r.outputTokens)
    case (Some(n), Some(m)) => n <= -1 || m <= -1
    case (Some(n), None) => n <= -1
    case (None, Some(m)) => m <= -1
    case (None, None) => false
  }

  /** Each attempt once, by the first delivery without a negative count. */
  function Counted(rs: seq<RequestRecord>): (counted: seq<RequestRecord>) {
    if rs == [] then []
    else
      var before, last := Counted(rs[..|rs| - 1]), rs[|rs| - 1];
      if ReportsNegative(last) || exists r :: r in before && SameAttempt(r, last) then before else before + [last]
  }

  // ----- what they cost and report

  /** Reported tokens at their price per million. */
  function Money(rates: Rates): (f: RequestRecord -> real) {
    (r: RequestRecord) =>
      var input := match r.inputTokens { case Some(n) => n as real * rates.inputPerMtok case None => 0.0 };
      var output := match r.outputTokens { case Some(n) => n as real * rates.outputPerMtok case None => 0.0 };
      (input + output) / 1000000.0
  }

  function BothReported(): (p: RequestRecord -> bool) {
    (r: RequestRecord) => r.inputTokens != None && r.outputTokens != None
  }

  function OneReported(): (p: RequestRecord -> bool) {
    (r: RequestRecord) => (r.inputTokens == None) != (r.outputTokens == None)
  }

  function NoneReported(): (p: RequestRecord -> bool) {
    (r: RequestRecord) => r.inputTokens == None && r.outputTokens == None
  }

  function InputReported(): (p: RequestRecord -> bool) {
    (r: RequestRecord) => r.inputTokens != None
  }

  function OutputReported(): (p: RequestRecord -> bool) {
    (r: RequestRecord) => r.outputTokens != None
  }

  lemma MoneyIsCost(records: seq<RequestRecord>, rates: Rates)
    ensures TotalCost(records, rates) == SumOf(records, Money(rates))
  {
    forall r | r in records
      ensures CostAt(rates)(r) == Money(rates)(r)
    {
    }
    SameSum(records, CostAt(rates), Money(rates));
  }

  lemma {:induction false} CountedAreFirst(rs: seq<RequestRecord>)
    ensures FirstDeliveries(rs) == Counted(rs)
  {
    if rs != [] {
      var before, last := Counted(rs[..|rs| - 1]), rs[|rs| - 1];
      CountedAreFirst(rs[..|rs| - 1]);
      assert HasNegativeTokens(last) <==> ReportsNegative(last);
      if r :| r in before && SameAttempt(r, last) {
        var i :| 0 <= i < |before| && before[i] == r;
        assert before[i].Key() == last.Key();
      }
      if HasKey(before, last.Key()) {
        var i :| 0 <= i < |before| && before[i].Key() == last.Key();
        assert before[i] in before && SameAttempt(before[i], last);
      }
    }
  }

  /** The counters of the completions that count. */
  ghost predicate Covers(a: Account, counted: seq<RequestRecord>) {
    && |a.seen| == |counted|
    && a.complete == Count(counted, BothReported()) && a.partialUse == Count(counted, OneReported())
    && a.missing == Count(counted, NoneReported())
    && a.inputKnown == Count(counted, InputReported()) && a.outputKnown == Count(counted, OutputReported())
  }

  predicate AllReported(counted: seq<RequestRecord>) {
    forall r :: r in counted ==> r.inputTokens != None && r.outputTokens != None
  }

  /** The published totals and coverage of the completions that count. */
  ghost predicate Publishes(a: Account, counted: seq<RequestRecord>, rates: Rates, cap: Option<real>) {
    var spend := SumOf(counted, Money(rates));
    && Covers(a, counted) && a.known == spend
    && TotalSpend(a) == (if AllReported(counted) then Some(spend) else None)
    && match cap
       case None => KnownOvershoot(a) == None
       case Some(limit) => KnownOvershoot(a) == Some(if spend <= limit then 0.0 else spend - limit)
  }

  lemma CoverageIs(a: Account, counted: seq<RequestRecord>)
    requires CoverageMatches(a, counted) && |a.seen| == |counted|
    ensures Covers(a, counted)
  {
    SameCount(counted, KnownExactly(2), BothReported());
    SameCount(counted, KnownExactly(1), OneReported());
    SameCount(counted, KnownExactly(0), NoneReported());
    SameCount(counted, InputKnown(), InputReported());
    SameCount(counted, OutputKnown(), OutputReported());
  }

  lemma TotalsAre(a: Account, counted: seq<RequestRecord>, rates: Rates)
    requires Covers(a, counted) && a.known == SumOf(counted, Money(rates))
    ensures Publishes(a, counted, rates, a.cap)
  {
    CountZero(counted, OneReported());
    CountZero(counted, NoneReported());
  }

  /**
   * What the controller publishes after any stream of completions, with replays, conflicts and malformed ones: the
   * plain sums and counts over the completions that count, the overshoot past the cap and nothing below it.
   */
  lemma SnapshotIs(rates: Rates, cap: Option<real>, rs: seq<RequestRecord>)
    requires ValidConfiguration(rates, cap)
    ensures Publishes(ObserveAll(Opened(rates, cap), rs), Counted(rs), rates, cap)
  {
    var a, counted := ObserveAll(Opened(rates, cap), rs), Counted(rs);
    StreamCounts(rates, cap, rs);
    SeenSize(a.seen, counted);
    CoverageIs(a, counted);
    MoneyIsCost(counted, rates);
    TotalsAre(a, counted, rates);
  }

  /** The accounting of a stream is that of what counts in it. */
  lemma StreamCounts(rates: Rates, cap: Option<real>, rs: seq<RequestRecord>)
    requires ValidConfiguration(rates, cap)
    ensures var a := ObserveAll(Opened(rates, cap), rs);
            && a == ObserveAll(Opened(rates, cap), Counted(rs)) && Accounts(a, Counted(rs))
            && a.rates == rates && a.cap == cap
    ensures DistinctKeys(Counted(rs)) && forall i :: 0 <= i < |Counted(rs)| ==> !HasNegativeTokens(Counted(rs)[i])
  {
    var counted := Counted(rs);
    CountedAreFirst(rs);
    RedeliveryChangesNothing(rates, cap, rs);
    FirstDeliveriesKept(rs);
    StreamPrices(rates, cap, rs);
    forall i | 0 <= i < |counted|
      ensures !HasNegativeTokens(counted[i])
    {
      assert counted[i] in counted;
    }
  }

  lemma {:induction false} StreamPrices(rates: Rates, cap: Option<real>, rs: seq<RequestRecord>)
    ensures ObserveAll(Opened(rates, cap), rs).rates == rates && ObserveAll(Opened(rates, cap), rs).cap == cap
  {
    if rs != [] {
      StreamPrices(rates, cap, rs[..|rs| - 1]);
      PricesStay(ObserveAll(Opened(rates, cap), rs[..|rs| - 1]), rs[|rs| - 1]);
    }
  }

  lemma SeenIsCounted(seen: map<AttemptKey, RequestRecord>, counted: seq<RequestRecord>, r: RequestRecord)
    requires SeenMatches(seen, counted)
    ensures r.Key() in seen <==> exists s :: s in counted && SameAttempt(s, r)
    ensures r.Key() in seen ==> (seen[r.Key()] == r <==> r in counted)
  {
    if s :| s in counted && SameAttempt(s, r) {
      var i :| 0 <= i < |counted| && counted[i] == s;
      assert s.Key() == r.Key();
    }
    if r.Key() in seen {
      assert seen[r.Key()] in counted && SameAttempt(seen[r.Key()], r);
    }
    if r in counted {
      var i :| 0 <= i < |counted| && counted[i] == r;
    }
  }

  /** What the caller of the completion callback is told. */
  lemma AnswerIs(rates: Rates, cap: Option<real>, rs: seq<RequestRecord>, r: RequestRecord)
    requires ValidConfiguration(rates, cap)
    ensures var answer := Observe(ObserveAll(Opened(rates, cap), rs), r).1;
            if exists s :: s in Counted(rs) && SameAttempt(s, r) then
              answer == if r in Counted(rs) then Replayed else Rejected(ConflictingCompletion)
            else answer == if ReportsNegative(r) then Rejected(NegativeTokens) else Charged
  {
    StreamCounts(rates, cap, rs);
    SeenIsCounted(ObserveAll(Opened(rates, cap), rs).seen, Counted(rs), r);
  }

  // ----- the stop

  /** The `n`-th completion that counts lacks a token count. */
  predicate LacksUsage(counted: seq<RequestRecord>, n: nat) {
    1 <= n <= |counted| && !BothReported()(counted[n - 1])
  }

  /** The first `n` of them cost as much as the cap. */
  predicate ReachesCap(counted: seq<RequestRecord>, n: nat, rates: Rates, cap: real) {
    n <= |counted| && SumOf(counted[..n], Money(rates)) >= cap
  }

  predicate Warrants(counted: seq<RequestRecord>, n: nat, rates: Rates, cap: real) {
    LacksUsage(counted, n) || ReachesCap(counted, n, rates, cap)
  }

  /** The earliest completion that warrants a stop; with unknown usage that is the reason, else the cap. */
  ghost predicate FirstWarrant(counted: seq<RequestRecord>, n: nat, rates: Rates, cap: real, why: StopReason) {
    && Warrants(counted, n, rates, cap) && (forall m: nat :: m < n ==> !Warrants(counted, m, rates, cap))
    && why == if LacksUsage(counted, n) then UnknownUsage else CapReached
  }

  ghost predicate NothingWarrants(counted: seq<RequestRecord>, rates: Rates, cap: real) {
    forall m: nat :: m <= |counted| ==> !Warrants(counted, m, rates, cap)
  }

  lemma EarlierWarrants(counted: seq<RequestRecord>, m: nat, rates: Rates, cap: real)
    requires m < |counted|
    ensures Warrants(counted[..|counted| - 1], m, rates, cap) <==> Warrants(counted, m, rates, cap)
    ensures LacksUsage(counted[..|counted| - 1], m) <==> LacksUsage(counted, m)
  {
    assert counted[..|counted| - 1][..m] == counted[..m];
  }

  lemma LastWarrants(counted: seq<RequestRecord>, rates: Rates, cap: real)
    requires counted != []
    ensures LacksUsage(counted, |counted|) <==> KnownCounts(counted[|counted| - 1]) < 2
    ensures ReachesCap(counted, |counted|, rates, cap) <==> TotalCost(counted, rates) >= cap
  {
    assert counted[..|counted|] == counted;
    MoneyIsCost(counted, rates);
  }

  ghost predicate ReasonFits(reason: Option<StopReason>, counted: seq<RequestRecord>, rates: Rates, cap: real) {
    match reason
    case None => NothingWarrants(counted, rates, cap)
    case Some(why) => exists n: nat :: FirstWarrant(counted, n, rates, cap, why)
  }

  lemma NextReason(rates: Rates, cap: real, counted: seq<RequestRecord>, before: Option<StopReason>)
    requires counted != [] && ReasonFits(before, counted[..|counted| - 1], rates, cap)
    ensures ReasonFits(if before.Some? then before
                       else if KnownCounts(counted[|counted| - 1]) < 2 then Some(UnknownUsage)
                       else if TotalCost(counted, rates) >= cap then Some(CapReached)
                       else None, counted, rates, cap)
  {
    var k: nat := |counted|;
    forall m: nat | m < k
      ensures Warrants(counted[..k - 1], m, rates, cap) <==> Warrants(counted, m, rates, cap)
      ensures LacksUsage(counted[..k - 1], m) <==> LacksUsage(counted, m)
    {
      EarlierWarrants(counted, m, rates, cap);
    }
    LastWarrants(counted, rates, cap);
    if before.Some? {
      var n: nat :| FirstWarrant(counted[..k - 1], n, rates, cap, before.value);
      assert FirstWarrant(counted, n, rates, cap, before.value);
    } else if LacksUsage(counted, k) {
      assert FirstWarrant(counted, k, rates, cap, UnknownUsage);
    } else if ReachesCap(counted, k, rates, cap) {
      assert FirstWarrant(counted, k, rates, cap, CapReached);
    }
  }

  lemma {:induction false} ReasonIs(rates: Rates, cap: real, counted: seq<RequestRecord>)
    requires ValidConfiguration(rates, Some(cap))
    ensures ReasonFits(FirstReason(rates, Some(cap), counted), counted, rates, cap)
  {
    if counted == [] {
      assert counted[..0] == [];
      if cap == 0.0 {
        assert FirstWarrant(counted, 0, rates, cap, FirstReason(rates, Some(cap), counted).value);
      }
    } else {
      ReasonIs(rates, cap, counted[..|counted| - 1]);
      NextReason(rates, cap, counted, FirstReason(rates, Some(cap), counted[..|counted| - 1]));
    }
  }

  /** The stop flag and its reason, by what warrants a stop. */
  ghost predicate Stops(a: Account, counted: seq<RequestRecord>, rates: Rates, cap: Option<real>) {
    match (cap, a.reason)
    case (None, why) => why.None? && !a.stopped
    case (Some(limit), None) => NothingWarrants(counted, rates, limit) && !a.stopped
    case (Some(limit), Some(why)) => a.stopped && exists n: nat :: FirstWarrant(counted, n, rates, limit, why)
  }

  /** Without a cap the controller never stops; with one exactly at the earliest completion that warrants it. */
  lemma StopIs(rates: Rates, cap: Option<real>, rs: seq<RequestRecord>)
    requires ValidConfiguration(rates, cap)
    ensures Stops(ObserveAll(Opened(rates, cap), rs), Counted(rs), rates, cap)
  {
    StreamCounts(rates, cap, rs);
    StreamStopReason(rates, cap, Counted(rs));
    if cap.None? {
      UncappedReason(rates, Counted(rs));
    } else {
      ReasonIs(rates, cap.value, Counted(rs));
    }
  }

  lemma {:induction false} UncappedReason(rates: Rates, counted: seq<RequestRecord>)
    ensures FirstReason(rates, None, counted).None?
  {
    if counted != [] {
      UncappedReason(rates, counted[..|counted| - 1]);
    }
  }

  /** The cost report's note: none when every completion reports both counts, else how many do not and the subtotal. */
  lemma NoteIs(records: seq<RequestRecord>, rates: Rates)
    ensures IncompleteCostNote(records, rates)
            == if AllReported(records) then None
               else Some((|records| - Count(records, BothReported()), |records|, SumOf(records, Money(rates))))
  {
    MoneyIsCost(records, rates);
    CountComplement(records);
    CountZero(records, UsageIncomplete());
  }

  lemma {:induction false} CountComplement(records: seq<RequestRecord>)
    ensures Count(records, UsageIncomplete()) == |records| - Count(records, BothReported())
  {
    if records != [] {
      CountComplement(records[..|records| - 1]);
    }
  }
}
