/** kneepoint/analyze/budget.py: cooperative observed-spend control. */
module Budget {
  import opened Basics
  import opened Records
  import opened Cost

  datatype StopReason = CapReached | UnknownUsage

  datatype SpendError = ConflictingCompletion | NegativeTokens | InvalidConfiguration

  datatype Observation = Charged | Replayed | Rejected(error: SpendError)

  /** The accounting as a value. `stopped` is the shared stop event. */
  datatype Account = Account(
    rates: Rates,
    cap: Option<real>,
    stopped: bool,
    reason: Option<StopReason>,
    seen: map<AttemptKey, RequestRecord>,
    known: real,
    complete: nat,
    partialUse: nat,
    missing: nat,
    inputKnown: nat,
    outputKnown: nat)

  predicate ValidConfiguration(rates: Rates, cap: Option<real>) {
    0.0 <= rates.inputPerMtok && 0.0 <= rates.outputPerMtok && (cap.Some? ==> 0.0 <= cap.value)
  }

  function Opened(rates: Rates, cap: Option<real>): (account: Account) {
    var zero := cap == Some(0.0);
    Account(rates, cap, zero, if zero then Some(CapReached) else None, map[], 0.0, 0, 0, 0, 0, 0)
  }

  predicate HasNegativeTokens(r: RequestRecord) {
    (r.inputTokens.Some? && r.inputTokens.value < 0) || (r.outputTokens.Some? && r.outputTokens.value < 0)
  }

  /** What the controller adds for one attempt: each known count at its own price, summed term by term. */
  function Charge(r: RequestRecord, rates: Rates): (x: real) {
    (match r.inputTokens case Some(n) => n as real * rates.inputPerMtok / 1000000.0 case None => 0.0)
    + (match r.outputTokens case Some(n) => n as real * rates.outputPerMtok / 1000000.0 case None => 0.0)
  }

  lemma ChargeIsRequestCost(r: RequestRecord, rates: Rates)
    ensures Charge(r, rates) == RequestCost(r, rates)
  {
    var a := OrZero(r.inputTokens) as real * rates.inputPerMtok;
    var b := OrZero(r.outputTokens) as real * rates.outputPerMtok;
    assert (a + b) / 1000000.0 == a / 1000000.0 + b / 1000000.0;
  }

  lemma ChargeNonNegative(r: RequestRecord, rates: Rates)
    requires ValidConfiguration(rates, None) && !HasNegativeTokens(r)
    ensures Charge(r, rates) >= 0.0
  {
    if r.inputTokens.Some? {
      assert r.inputTokens.value as real * rates.inputPerMtok >= 0.0;
    }
    if r.outputTokens.Some? {
      assert r.outputTokens.value as real * rates.outputPerMtok >= 0.0;
    }
  }

  function RequestStop(a: Account, why: StopReason): (account: Account) {
    a.(stopped := true, reason := if a.reason.None? then Some(why) else a.reason)
  }

  function Tally(a: Account, r: RequestRecord): (account: Account) {
    var known := KnownCounts(r);
    a.(seen := a.seen[r.Key() := r],
       known := a.known + Charge(r, a.rates),
       inputKnown := a.inputKnown + (if r.inputTokens.Some? then 1 else 0),
       outputKnown := a.outputKnown + (if r.outputTokens.Some? then 1 else 0),
       complete := a.complete + (if known == 2 then 1 else 0),
       partialUse := a.partialUse + (if known == 1 then 1 else 0),
       missing := a.missing + (if known == 0 then 1 else 0))
  }

  /** One completion callback: the new accounting and what the caller is told. */
  function Observe(a: Account, r: RequestRecord): (result: (Account, Observation)) {
    if r.Key() in a.seen then
      (a, if a.seen[r.Key()] == r then Replayed else Rejected(ConflictingCompletion))
    else if HasNegativeTokens(r) then
      (a, Rejected(NegativeTokens))
    else
      var b := Tally(a, r);
      (if a.cap.None? then b
       else if KnownCounts(r) < 2 then RequestStop(b, UnknownUsage)
       else if b.known >= a.cap.value then RequestStop(b, CapReached)
       else b,
       Charged)
  }

  /** The totals a snapshot publishes. */
  function TotalSpend(a: Account): (r: Option<real>) {
    if a.partialUse > 0 || a.missing > 0 then None else Some(a.known)
  }

  function KnownOvershoot(a: Account): (r: Option<real>) {
    if a.cap.None? then None else Some(MaxReal(0.0, a.known - a.cap.value))
  }

  // ----- the accounting after a whole stream of completions, against plain sums over the records

  function ObserveAll(a: Account, rs: seq<RequestRecord>): (account: Account)
  {
    if rs == [] then a else Observe(ObserveAll(a, rs[..|rs| - 1]), rs[|rs| - 1]).0
  }

  predicate DistinctKeys(rs: seq<RequestRecord>) {
    forall i, j :: 0 <= i < j < |rs| ==> rs[i].Key() != rs[j].Key()
  }

  /** The identities seen are exactly those of the records, each with its own payload. */
  ghost predicate SeenMatches(seen: map<AttemptKey, RequestRecord>, rs: seq<RequestRecord>) {
    && (forall i :: 0 <= i < |rs| ==> rs[i].Key() in seen && seen[rs[i].Key()] == rs[i])
    && (forall k :: k in seen ==> seen[k] in rs && seen[k].Key() == k)
  }

  /** `a` is the exact accounting of the completions `rs`. */
  ghost predicate Accounts(a: Account, rs: seq<RequestRecord>) {
    && SeenMatches(a.seen, rs)
    && a.known == TotalCost(rs, a.rates)
    && CoverageMatches(a, rs)
  }

  ghost predicate CoverageMatches(a: Account, rs: seq<RequestRecord>) {
    && a.complete == Count(rs, KnownExactly(2))
    && a.partialUse == Count(rs, KnownExactly(1))
    && a.missing == Count(rs, KnownExactly(0))
    && a.inputKnown == Count(rs, InputKnown())
    && a.outputKnown == Count(rs, OutputKnown())
  }

  /** A capped, unstopped account is strictly below its cap and has seen no unknown usage. */
  ghost predicate BelowCapUnlessStopped(a: Account) {
    && (a.cap.Some? && !a.stopped ==> a.known < a.cap.value && a.partialUse == 0 && a.missing == 0)
    && (a.reason.Some? ==> a.stopped)
  }

  lemma OpenedIsBelowCap(rates: Rates, cap: Option<real>)
    requires ValidConfiguration(rates, cap)
    ensures BelowCapUnlessStopped(Opened(rates, cap))
    ensures Accounts(Opened(rates, cap), [])
  {
  }

  lemma ObserveKeepsBelowCap(a: Account, r: RequestRecord)
    requires BelowCapUnlessStopped(a)
    ensures BelowCapUnlessStopped(Observe(a, r).0)
    ensures a.stopped ==> Observe(a, r).0.stopped
    ensures a.reason.Some? ==> Observe(a, r).0.reason == a.reason
    ensures Observe(a, r).0.cap == a.cap && Observe(a, r).0.rates == a.rates
  {
  }

  lemma UnseenKey(seen: map<AttemptKey, RequestRecord>, rs: seq<RequestRecord>, r: RequestRecord)
    requires SeenMatches(seen, rs)
    requires forall i :: 0 <= i < |rs| ==> rs[i].Key() != r.Key()
    ensures r.Key() !in seen
  {
  }

  lemma SeenExtends(seen: map<AttemptKey, RequestRecord>, rs: seq<RequestRecord>, r: RequestRecord)
    requires SeenMatches(seen, rs) && r.Key() !in seen
    ensures SeenMatches(seen[r.Key() := r], rs + [r])
  {
    var seen' := seen[r.Key() := r];
    forall k | k in seen'
      ensures seen'[k] in rs + [r] && seen'[k].Key() == k
    {
      if k != r.Key() {
        assert k in seen && seen[k] in rs;
      }
    }
  }

  /** A new identity extends the exact accounting by exactly that completion. */
  lemma ObserveExtendsAccounts(a: Account, rs: seq<RequestRecord>, r: RequestRecord)
    requires Accounts(a, rs) && r.Key() !in a.seen && !HasNegativeTokens(r)
    ensures Observe(a, r).1 == Charged
    ensures Accounts(Observe(a, r).0, rs + [r])
  {
    TallyExtendsAccounts(a, rs, r);
    var b := Tally(a, r);
    assert Accounts(RequestStop(b, UnknownUsage), rs + [r]);
    assert Accounts(RequestStop(b, CapReached), rs + [r]);
  }

  lemma TallyExtendsAccounts(a: Account, rs: seq<RequestRecord>, r: RequestRecord)
    requires Accounts(a, rs) && r.Key() !in a.seen
    ensures Accounts(Tally(a, r), rs + [r])
  {
    SeenExtends(a.seen, rs, r);
    assert TotalCost(rs + [r], a.rates) == TotalCost(rs, a.rates) + Charge(r, a.rates) by {
      ChargeIsRequestCost(r, a.rates);
      SumSnoc(rs, r, CostAt(a.rates));
    }
    CoverageExtends(a, rs, r);
  }

  lemma CoverageExtends(a: Account, rs: seq<RequestRecord>, r: RequestRecord)
    requires CoverageMatches(a, rs)
    ensures CoverageMatches(Tally(a, r), rs + [r])
  {
    CountSnoc(rs, r, KnownExactly(2));
    CountSnoc(rs, r, KnownExactly(1));
    CountSnoc(rs, r, KnownExactly(0));
    CountSnoc(rs, r, InputKnown());
    CountSnoc(rs, r, OutputKnown());
  }

  /** Replaying or contradicting a seen identity never changes the accounting. */
  lemma SeenIdentityChangesNothing(a: Account, r: RequestRecord)
    requires r.Key() in a.seen
    ensures Observe(a, r).0 == a
    ensures Observe(a, r).1 == Replayed <==> a.seen[r.Key()] == r
  {
  }

  /**
   * The published totals of an exact accounting: the known spend is the plain cost sum, the total is
   * unknown exactly when the cost report says usage is incomplete, and the three coverage counters
   * partition the completed attempts.
   */
  lemma AccountsMeansExactTotals(a: Account, rs: seq<RequestRecord>)
    requires Accounts(a, rs) && DistinctKeys(rs)
    ensures a.known == TotalCost(rs, a.rates)
    ensures TotalSpend(a).None? <==> IncompleteCostNote(rs, a.rates).Some?
    ensures |a.seen| == |rs| == a.complete + a.partialUse + a.missing
    ensures a.inputKnown + a.outputKnown == 2 * a.complete + a.partialUse
  {
    UsagePartition(rs);
    SeenSize(a.seen, rs);
  }

  /** Taking the last completion out again. */
  lemma SeenShrinks(seen: map<AttemptKey, RequestRecord>, rs: seq<RequestRecord>, last: RequestRecord)
    requires DistinctKeys(rs + [last]) && SeenMatches(seen, rs + [last])
    ensures SeenMatches(seen - {last.Key()}, rs)
    ensures last.Key() in seen
  {
    var all, smaller := rs + [last], seen - {last.Key()};
    assert all[|rs|] == last;
    forall i | 0 <= i < |rs|
      ensures rs[i].Key() in smaller && smaller[rs[i].Key()] == rs[i]
    {
      assert all[i] == rs[i];
    }
    forall k | k in smaller
      ensures smaller[k] in rs && smaller[k].Key() == k
    {
      var i :| 0 <= i < |all| && all[i] == seen[k];
      assert i < |rs|;
    }
  }

  lemma OneKeyLess<K, V>(m: map<K, V>, k: K)
    requires k in m
    ensures |m| == |m - {k}| + 1
  {
    assert m.Keys == (m - {k}).Keys + {k};
  }

  lemma {:induction false} SeenSize(seen: map<AttemptKey, RequestRecord>, rs: seq<RequestRecord>)
    requires DistinctKeys(rs) && SeenMatches(seen, rs)
    ensures |seen| == |rs|
  {
    if rs == [] {
      assert forall k :: k !in seen;
      assert seen == map[];
    } else {
      var rs', last := rs[..|rs| - 1], rs[|rs| - 1];
      assert rs == rs' + [last];
      SeenShrinks(seen, rs', last);
      SeenSize(seen - {last.Key()}, rs');
      OneKeyLess(seen, last.Key());
    }
  }

  /** A whole stream of distinct, nonnegative completions is accounted exactly. */
  lemma {:induction false} StreamIsAccountedExactly(rates: Rates, cap: Option<real>, rs: seq<RequestRecord>)
    requires ValidConfiguration(rates, cap) && DistinctKeys(rs)
    requires forall i :: 0 <= i < |rs| ==> !HasNegativeTokens(rs[i])
    ensures Accounts(ObserveAll(Opened(rates, cap), rs), rs)
    ensures ObserveAll(Opened(rates, cap), rs).rates == rates && ObserveAll(Opened(rates, cap), rs).cap == cap
  {
    if rs != [] {
      var rs', last := rs[..|rs| - 1], rs[|rs| - 1];
      assert rs == rs' + [last];
      StreamIsAccountedExactly(rates, cap, rs');
      StreamGrows(ObserveAll(Opened(rates, cap), rs'), rs', last);
      PricesStay(ObserveAll(Opened(rates, cap), rs'), last);
    }
  }

  lemma StreamGrows(a: Account, rs: seq<RequestRecord>, last: RequestRecord)
    requires Accounts(a, rs) && DistinctKeys(rs + [last]) && !HasNegativeTokens(last)
    ensures Accounts(Observe(a, last).0, rs + [last])
  {
    LastKeyIsNew(rs, last);
    UnseenKey(a.seen, rs, last);
    ObserveExtendsAccounts(a, rs, last);
  }

  lemma PricesStay(a: Account, r: RequestRecord)
    ensures Observe(a, r).0.rates == a.rates && Observe(a, r).0.cap == a.cap
  {
  }

  lemma LastKeyIsNew(rs: seq<RequestRecord>, last: RequestRecord)
    requires DistinctKeys(rs + [last])
    ensures forall i :: 0 <= i < |rs| ==> rs[i].Key() != last.Key()
  {
    var all := rs + [last];
    assert all[|rs|] == last;
    assert forall i :: 0 <= i < |rs| ==> all[i] == rs[i];
  }

  /** The stop is set, and its reason fixed, by the first completion that warrants it. */
  lemma {:induction false} StreamStopReason(rates: Rates, cap: Option<real>, rs: seq<RequestRecord>)
    requires ValidConfiguration(rates, cap) && DistinctKeys(rs)
    requires forall i :: 0 <= i < |rs| ==> !HasNegativeTokens(rs[i])
    ensures ObserveAll(Opened(rates, cap), rs).reason == FirstReason(rates, cap, rs)
    ensures ObserveAll(Opened(rates, cap), rs).stopped <==> FirstReason(rates, cap, rs).Some?
  {
    if rs != [] {
      var rs', last := rs[..|rs| - 1], rs[|rs| - 1];
      StreamStopReason(rates, cap, rs');
      StreamIsAccountedExactly(rates, cap, rs');
      var a := ObserveAll(Opened(rates, cap), rs');
      assert last.Key() !in a.seen;
      assert Tally(a, last).known == TotalCost(rs, rates) by {
        ChargeIsRequestCost(last, rates);
      }
    }
  }

  /** The completions of a stream that count: no negative counts, and each identity only the first time. */
  function FirstDeliveries(rs: seq<RequestRecord>): (s: seq<RequestRecord>) {
    if rs == [] then []
    else
      var before, last := FirstDeliveries(rs[..|rs| - 1]), rs[|rs| - 1];
      if HasNegativeTokens(last) || HasKey(before, last.Key()) then before else before + [last]
  }

  predicate HasKey(rs: seq<RequestRecord>, key: AttemptKey) {
    exists i :: 0 <= i < |rs| && rs[i].Key() == key
  }

  lemma {:induction false} FirstDeliveriesKept(rs: seq<RequestRecord>)
    ensures DistinctKeys(FirstDeliveries(rs))
    ensures forall r :: r in FirstDeliveries(rs) ==> r in rs && !HasNegativeTokens(r)
    ensures forall r :: r in rs && !HasNegativeTokens(r) ==> HasKey(FirstDeliveries(rs), r.Key())
  {
    if rs != [] {
      var n := |rs| - 1;
      assert rs == rs[..n] + [rs[n]];
      FirstDeliveriesKept(rs[..n]);
      forall r | r in rs && !HasNegativeTokens(r)
        ensures HasKey(FirstDeliveries(rs), r.Key())
      {
        KeySnoc(FirstDeliveries(rs[..n]), rs[n], r.Key());
      }
    }
  }

  lemma KeySnoc(rs: seq<RequestRecord>, r: RequestRecord, key: AttemptKey)
    ensures HasKey(rs + [r], key) <==> HasKey(rs, key) || r.Key() == key
  {
    assert (rs + [r])[|rs|] == r;
    if i :| 0 <= i < |rs| && rs[i].Key() == key {
      assert (rs + [r])[i].Key() == key;
    }
  }

  /**
   * Any stream at all: completions delivered again, in any order, as replays or with another payload, and
   * completions with negative counts change nothing. The accounting is the exact one of what counts.
   */
  lemma {:induction false} RedeliveryChangesNothing(rates: Rates, cap: Option<real>, rs: seq<RequestRecord>)
    requires ValidConfiguration(rates, cap)
    ensures ObserveAll(Opened(rates, cap), rs) == ObserveAll(Opened(rates, cap), FirstDeliveries(rs))
    ensures Accounts(ObserveAll(Opened(rates, cap), rs), FirstDeliveries(rs))
  {
    FirstDeliveriesKept(rs);
    forall i | 0 <= i < |FirstDeliveries(rs)|
      ensures !HasNegativeTokens(FirstDeliveries(rs)[i])
    {
      assert FirstDeliveries(rs)[i] in FirstDeliveries(rs);
    }
    StreamIsAccountedExactly(rates, cap, FirstDeliveries(rs));
    if rs != [] {
      var n := |rs| - 1;
      RedeliveryChangesNothing(rates, cap, rs[..n]);
      DeliverOneMore(ObserveAll(Opened(rates, cap), rs[..n]), FirstDeliveries(rs[..n]), rs[n]);
      ObserveLast(Opened(rates, cap), FirstDeliveries(rs[..n]), rs[n]);
    }
  }

  lemma ObserveLast(a: Account, rs: seq<RequestRecord>, last: RequestRecord)
    ensures ObserveAll(a, rs + [last]) == Observe(ObserveAll(a, rs), last).0
  {
    assert (rs + [last])[..|rs|] == rs;
  }

  lemma DeliverOneMore(a: Account, counted: seq<RequestRecord>, r: RequestRecord)
    requires Accounts(a, counted)
    ensures HasNegativeTokens(r) || HasKey(counted, r.Key()) ==> Observe(a, r).0 == a
  {
    if r.Key() in a.seen {
      SeenIdentityChangesNothing(a, r);
    }
  }

  /** Reference reading of the stop rule: the earliest prefix that warrants a stop names the reason. */
  ghost function FirstReason(rates: Rates, cap: Option<real>, rs: seq<RequestRecord>): (r: Option<StopReason>) {
    if rs == [] then (if cap == Some(0.0) then Some(CapReached) else None)
    else
      var before := FirstReason(rates, cap, rs[..|rs| - 1]);
      if before.Some? || cap.None? then before
      else if KnownCounts(rs[|rs| - 1]) < 2 then Some(UnknownUsage)
      else if TotalCost(rs, rates) >= cap.value then Some(CapReached)
      else None
  }

  /** The controller object; `Acct` is its state as a value. */
  class ObservedSpendController {
    const rates: Rates
    const cap: Option<real>
    var stopSet: bool
    var stopReason: Option<StopReason>
    var seen: map<AttemptKey, RequestRecord>
    var knownSpend: real
    var complete: nat
    var partialUse: nat
    var missing: nat
    var inputKnown: nat
    var outputKnown: nat

    ghost function Acct(): (account: Account)
      reads this
    {
      Account(rates, cap, stopSet, stopReason, seen, knownSpend,
              complete, partialUse, missing, inputKnown, outputKnown)
    }

    constructor (rates: Rates, cap: Option<real>)
      requires ValidConfiguration(rates, cap)
      ensures Acct() == Opened(rates, cap)
    {
      this.rates, this.cap := rates, cap;
      stopSet, stopReason := false, None;
      seen, knownSpend := map[], 0.0;
      complete, partialUse, missing := 0, 0, 0;
      inputKnown, outputKnown := 0, 0;
      new;
      if cap == Some(0.0) {
        RequestStopNow(CapReached);
      }
    }

    /** The constructor behind its checks: negative prices or caps are refused. */
    static method Create(rates: Rates, cap: Option<real>)
      returns (r: Result<ObservedSpendController, SpendError>)
      ensures r.Ok? <==> ValidConfiguration(rates, cap)
      ensures r.Ok? ==> fresh(r.value) && r.value.Acct() == Opened(rates, cap)
      ensures r.Err? ==> r.error == InvalidConfiguration
    {
      if rates.inputPerMtok < 0.0 || rates.outputPerMtok < 0.0 || (cap.Some? && cap.value < 0.0) {
        return Err(InvalidConfiguration);
      }
      var c := new ObservedSpendController(rates, cap);
      r := Ok(c);
    }

    /** Someone else who holds the stop event sets it; the controller keeps its reason. */
    method SetStopEvent()
      modifies this
      ensures Acct() == old(Acct()).(stopped := true)
    {
      stopSet := true;
    }

    method RequestStopNow(why: StopReason)
      modifies this
      ensures Acct() == RequestStop(old(Acct()), why)
    {
      if stopReason.None? {
        stopReason := Some(why);
      }
      stopSet := true;
    }

    method OnAttemptComplete(r: RequestRecord) returns (result: Observation)
      modifies this
      ensures (Acct(), result) == Observe(old(Acct()), r)
    {
      var key := r.Key();
      if key in seen {
        if seen[key] != r {
          return Rejected(ConflictingCompletion);
        }
        return Replayed;
      }
      if (r.inputTokens.Some? && r.inputTokens.value < 0) || (r.outputTokens.Some? && r.outputTokens.value < 0) {
        return Rejected(NegativeTokens);
      }
      var charge := 0.0;
      if r.inputTokens.Some? {
        charge := charge + r.inputTokens.value as real * rates.inputPerMtok / 1000000.0;
      }
      if r.outputTokens.Some? {
        charge := charge + r.outputTokens.value as real * rates.outputPerMtok / 1000000.0;
      }
      assert charge == Charge(r, rates);
      seen := seen[key := r];
      knownSpend := knownSpend + charge;
      var known := 0;
      if r.inputTokens.Some? { inputKnown, known := inputKnown + 1, known + 1; }
      if r.outputTokens.Some? { outputKnown, known := outputKnown + 1, known + 1; }
      if known == 2 { complete := complete + 1; }
      if known == 1 { partialUse := partialUse + 1; }
      if known == 0 { missing := missing + 1; }
      if cap.Some? {
        if known < 2 {
          RequestStopNow(UnknownUsage);
        } else if knownSpend >= cap.value {
          RequestStopNow(CapReached);
        }
      }
      result := Charged;
    }

    /** `snapshot`: the totals published so far. */
    method Snapshot() returns (total: Option<real>, overshoot: Option<real>)
      ensures total == TotalSpend(Acct()) && overshoot == KnownOvershoot(Acct())
    {
      total, overshoot := Some(knownSpend), None;
      if partialUse != 0 || missing != 0 {
        total := None;
      }
      if cap.Some? {
        overshoot := Some(if knownSpend > cap.value then knownSpend - cap.value else 0.0);
      }
    }
  }
}
