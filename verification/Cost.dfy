/** kneepoint/analyze/cost.py: the plain sums the spend controller has to agree with. */
module Cost {
  import opened Basics
  import opened Records

  datatype Rates = Rates(inputPerMtok: real, outputPerMtok: real)

  function OrZero(tokens: Option<int>): (n: int) {
    match tokens
    case Some(n) => n
    case None => 0
  }

  function RequestCost(r: RequestRecord, rates: Rates): (x: real) {
    (OrZero(r.inputTokens) as real * rates.inputPerMtok
     + OrZero(r.outputTokens) as real * rates.outputPerMtok) / 1000000.0
  }

  function CostAt(rates: Rates): (f: RequestRecord -> real) {
    (r: RequestRecord) => RequestCost(r, rates)
  }

  function TotalCost(records: seq<RequestRecord>, rates: Rates): (x: real) {
    SumOf(records, CostAt(rates))
  }

  function KnownCounts(r: RequestRecord): (n: nat) {
    (if r.inputTokens.Some? then 1 else 0) + (if r.outputTokens.Some? then 1 else 0)
  }

  function KnownExactly(n: nat): (p: RequestRecord -> bool) {
    (r: RequestRecord) => KnownCounts(r) == n
  }

  function InputKnown(): (p: RequestRecord -> bool) {
    (r: RequestRecord) => r.inputTokens.Some?
  }

  function OutputKnown(): (p: RequestRecord -> bool) {
    (r: RequestRecord) => r.outputTokens.Some?
  }

  function UsageIncomplete(): (p: RequestRecord -> bool) {
    (r: RequestRecord) => r.inputTokens.None? || r.outputTokens.None?
  }

  /** The note appears exactly when some completed attempt lacks a token count; it carries that count. */
  function IncompleteCostNote(records: seq<RequestRecord>, rates: Rates): (r: Option<(nat, nat, real)>) {
    var incomplete := Count(records, UsageIncomplete());
    if incomplete == 0 then None
    else Some((incomplete, |records|, TotalCost(records, rates)))
  }

  /** Every completed attempt has two, one or no known counts, and the note is about the last two groups. */
  lemma {:induction false} UsagePartition(records: seq<RequestRecord>)
    ensures Count(records, KnownExactly(2)) + Count(records, KnownExactly(1)) + Count(records, KnownExactly(0))
         == |records|
    ensures Count(records, KnownExactly(1)) + Count(records, KnownExactly(0)) == Count(records, UsageIncomplete())
    ensures Count(records, InputKnown()) + Count(records, OutputKnown())
         == 2 * Count(records, KnownExactly(2)) + Count(records, KnownExactly(1))
  {
    if records != [] {
      UsagePartition(records[..|records| - 1]);
    }
  }
}
