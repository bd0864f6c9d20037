/** kneepoint/analyze/retry.py: how much load the generator added on top of the workload. */
module Retry {
  import opened Basics
  import opened Records
  import opened Grouping

  datatype RetryLevel = RetryLevel(
    concurrency: int,
    sessions: nat,
    requests: nat,
    firstAttempts: nat,
    retries: nat,
    abandoned: nat,
    amplification: real)

  function SessionOfLevel(c: int): (p: SessionRecord -> bool) {
    (s: SessionRecord) => s.concurrency == c
  }

  function AbandonedOfLevel(c: int): (p: RequestRecord -> bool) {
    (r: RequestRecord) => r.concurrency == c && r.abandoned
  }

  /** The row of one level, counted over the whole interleaved record list. */
  function RowOf(records: seq<RequestRecord>, sessions: seq<SessionRecord>, c: int): (retryLevel: RetryLevel) {
    var requests := Count(records, OfLevel(c));
    var first := Count(records, FirstOfLevel(c));
    FirstsAreRequests(records, c);
    RetryLevel(c, Count(sessions, SessionOfLevel(c)), requests, first, requests - first,
               Count(records, AbandonedOfLevel(c)),
               if first > 0 then requests as real / first as real else 1.0)
  }

  /** A level's row, read off the records and sessions: requests are its records, first attempts those numbered one. */
  ghost predicate RowFields(row: RetryLevel, records: seq<RequestRecord>, sessions: seq<SessionRecord>, c: int) {
    && row.concurrency == c
    && row.sessions == Count(sessions, SessionOfLevel(c))
    && row.requests == Count(records, OfLevel(c))
    && row.firstAttempts == Count(records, FirstOfLevel(c))
    && row.retries == row.requests - row.firstAttempts
    && row.abandoned == Count(records, AbandonedOfLevel(c))
    && (if row.firstAttempts == 0 then row.amplification == 1.0
        else row.amplification == row.requests as real / row.firstAttempts as real)
  }

  /** A row is its level's counts, over exactly the records and sessions of that level. */
  lemma RowIs(records: seq<RequestRecord>, sessions: seq<SessionRecord>, c: int, r: RequestRecord, s: SessionRecord)
    ensures RowFields(RowOf(records, sessions, c), records, sessions, c)
    ensures OfLevel(c)(r) <==> r.concurrency == c
    ensures FirstOfLevel(c)(r) <==> r.concurrency == c && r.attempt == 1
    ensures AbandonedOfLevel(c)(r) <==> r.concurrency == c && r.abandoned
    ensures SessionOfLevel(c)(s) <==> s.concurrency == c
  {
    FirstsAreRequests(records, c);
  }

  lemma {:induction false} FirstsAreRequests(records: seq<RequestRecord>, c: int)
    ensures Count(records, FirstOfLevel(c)) <= Count(records, OfLevel(c))
  {
    if records != [] {
      FirstsAreRequests(records[..|records| - 1], c);
    }
  }

  /** Counting inside a level's group and counting the level's records in the whole list agree. */
  lemma {:induction false} GroupCounts(records: seq<RequestRecord>, c: int)
    ensures Count(Filter(records, OfLevel(c)), IsFirstAttempt()) == Count(records, FirstOfLevel(c))
    ensures Count(Filter(records, OfLevel(c)), IsAbandoned()) == Count(records, AbandonedOfLevel(c))
    ensures |Filter(records, OfLevel(c))| == Count(records, OfLevel(c))
  {
    if records != [] {
      var rs, r := records[..|records| - 1], records[|records| - 1];
      GroupCounts(rs, c);
      CountSnoc(Filter(rs, OfLevel(c)), r, IsFirstAttempt());
      CountSnoc(Filter(rs, OfLevel(c)), r, IsAbandoned());
    }
  }

  method CountSessions(sessions: seq<SessionRecord>) returns (byLevel: map<int, nat>)
    ensures forall c: int ::
      Count(sessions, SessionOfLevel(c)) == if c in byLevel then byLevel[c] else 0
  {
    byLevel := map[];
    for i := 0 to |sessions|
      invariant forall c: int ::
        Count(sessions[..i], SessionOfLevel(c)) == if c in byLevel then byLevel[c] else 0
    {
      var s := sessions[i];
      assert sessions[..i + 1] == sessions[..i] + [s];
      forall c: int
        ensures Count(sessions[..i + 1], SessionOfLevel(c))
             == Count(sessions[..i], SessionOfLevel(c)) + if s.concurrency == c then 1 else 0
      {
        CountSnoc(sessions[..i], s, SessionOfLevel(c));
      }
      byLevel := byLevel[s.concurrency := (if s.concurrency in byLevel then byLevel[s.concurrency] else 0) + 1];
    }
    assert sessions[..|sessions|] == sessions;
  }

  /** The loops of `retry_by_level`: one row per level that has records, in increasing level order. */
  method RetryByLevel(records: seq<RequestRecord>, sessions: seq<SessionRecord>) returns (out: seq<RetryLevel>)
    ensures |out| == |Levels(records)|
    ensures forall k :: 0 <= k < |out| ==> out[k] == RowOf(records, sessions, Levels(records)[k])
  {
    var sessionsByLevel := CountSessions(sessions);
    var byLevel := GroupByLevel(records);
    var levels := SortedKeys(byLevel.Keys);
    LevelsAreSorted(records);
    AscendingUnique(levels, Levels(records));
    out := [];
    for k := 0 to |levels|
      invariant |out| == k
      invariant forall j :: 0 <= j < k ==> out[j] == RowOf(records, sessions, levels[j])
    {
      var c := levels[k];
      assert c in byLevel;
      var recs := byLevel[c];
      var first := CountWhere(recs, IsFirstAttempt());
      var abandoned := CountWhere(recs, IsAbandoned());
      GroupCounts(records, c);
      FirstsAreRequests(records, c);
      out := out + [RetryLevel(c, if c in sessionsByLevel then sessionsByLevel[c] else 0, |recs|, first,
                               |recs| - first, abandoned,
                               if first > 0 then |recs| as real / first as real else 1.0)];
    }
  }

  /** First attempts that pay for every request bound the amplification by the attempts allowed per turn. */
  lemma PaidMeansBounded(records: seq<RequestRecord>, sessions: seq<SessionRecord>, c: int, maxAttempts: int)
    requires Count(records, OfLevel(c)) <= maxAttempts * Count(records, FirstOfLevel(c))
    requires c in Levels(records)
    ensures var row := RowOf(records, sessions, c);
            && row.firstAttempts >= 1
            && 1.0 <= row.amplification <= maxAttempts as real
            && row.requests == row.firstAttempts + row.retries
  {
    LevelHasGroup(records, c);
    CountFilter(records, OfLevel(c));
    FirstsAreRequests(records, c);
    var requests, first := Count(records, OfLevel(c)), Count(records, FirstOfLevel(c));
    assert requests > 0;
    assert first == 0 ==> maxAttempts * first == 0;
    Quotient(requests, first, maxAttempts);
  }

  lemma Quotient(requests: nat, first: nat, most: int)
    requires 0 < first <= requests <= most * first
    ensures 1.0 <= requests as real / first as real <= most as real
  {
    var f := first as real;
    assert (most * first) as real == most as real * f;
    DivideKept(f, requests as real, f);
    DivideKept(requests as real, most as real * f, f);
    DivideBack(most as real, f);
  }

  lemma DivideKept(x: real, y: real, f: real)
    requires x <= y && f > 0.0
    ensures x / f <= y / f
  {
    assert (y - x) / f >= 0.0;
  }

  lemma DivideBack(x: real, f: real)
    requires f > 0.0
    ensures x * f / f == x && f / f == 1.0
  {
  }

  /** The first level of the largest amplification among those with retries, if any level retried. */
  function Worst(levels: seq<RetryLevel>): (r: Option<RetryLevel>) {
    if levels == [] then None
    else
      var before := Worst(levels[..|levels| - 1]);
      var last := levels[|levels| - 1];
      if last.retries == 0 then before
      else if before.None? || last.amplification > before.value.amplification then Some(last)
      else before
  }

  /** `k` is the first level with retries whose amplification no other one with retries exceeds. */
  ghost predicate IsWorst(k: nat, levels: seq<RetryLevel>) {
    && k < |levels| && levels[k].retries > 0
    && forall j :: 0 <= j < |levels| && levels[j].retries > 0 ==>
         if j < k then levels[j].amplification < levels[k].amplification
         else levels[j].amplification <= levels[k].amplification
  }

  lemma {:induction false} WorstIsWorst(levels: seq<RetryLevel>)
    ensures Worst(levels).None? <==> forall k :: 0 <= k < |levels| ==> levels[k].retries == 0
    ensures Worst(levels).Some? ==> exists k: nat :: IsWorst(k, levels) && levels[k] == Worst(levels).value
  {
    if levels != [] {
      var n := |levels| - 1;
      var rest := levels[..n];
      WorstIsWorst(rest);
      assert forall j :: 0 <= j < n ==> rest[j] == levels[j];
      if Worst(rest).Some? {
        var k: nat :| IsWorst(k, rest) && rest[k] == Worst(rest).value;
        assert Worst(levels) == Worst(rest) ==> IsWorst(k, levels) && levels[k] == Worst(rest).value;
      }
      assert Worst(levels) != Worst(rest) ==> IsWorst(n, levels);
    }
  }
}
