/** The knee of a whole run: the per-level statistics of its records, read as a curve. */
module KneeOfRun {
  import opened Basics
  import opened Records
  import opened Grouping
  import opened Timing
  import A = Aggregate
  import K = Knee

  function PointOf(s: A.LevelStats): (r: K.Level) {
    K.Level(s.concurrency, Some(s.successfulN), s.p95, s.contaminated)
  }

  function CurveOf(stats: seq<A.LevelStats>): (curve: seq<K.Level>)
    ensures |curve| == |stats| && forall i :: 0 <= i < |stats| ==> curve[i] == PointOf(stats[i])
  {
    seq(|stats|, i requires 0 <= i < |stats| => PointOf(stats[i]))
  }

  ghost function RunCurve(records: seq<RequestRecord>, p: Params, meta: Option<A.Meta>): (s: seq<K.Level>) {
    CurveOf(A.Aggregated(records, p, meta))
  }

  /** A run's statistics never repeat a level. */
  lemma RunCurveIsDistinct(records: seq<RequestRecord>, p: Params, meta: Option<A.Meta>)
    ensures K.Distinct(RunCurve(records, p, meta))
  {
    A.StatsShape(records, A.TimingsOf(records, A.Effective(p, meta)), meta);
  }

  /** Whatever records a run leaves, the integer it reports is the lowest level the crossing can fall on. */
  lemma RunKneeIsLowestCrossing(records: seq<RequestRecord>, p: Params, meta: Option<A.Meta>, minSamples: int,
                                answer: Option<int>)
    requires K.FindKnee(RunCurve(records, p, meta), minSamples, answer).Some?
    ensures var curve := RunCurve(records, p, meta);
            K.LowestCrossing(K.FindKnee(curve, minSamples, answer).value,
                             K.KneeReport(curve, minSamples, answer).ratios)
  {
    RunCurveIsDistinct(records, p, meta);
    K.FindKneeIsLowestCrossing(RunCurve(records, p, meta), minSamples, answer);
  }

  /** One abandoned request or clock anomaly anywhere in the run, and no knee is published as "high". */
  lemma TaintedRunIsNeverHigh(records: seq<RequestRecord>, p: Params, meta: Option<A.Meta>, minSamples: int,
                              answer: Option<int>, d: int)
    requires d in Levels(records)
    requires A.Taints(A.RowsOf(records), d, A.TimingsOf(records, A.Effective(p, meta)))
    ensures K.KneeReport(RunCurve(records, p, meta), minSamples, answer).confidence != Some(K.High)
  {
    var curve := RunCurve(records, p, meta);
    RunCurveIsDistinct(records, p, meta);
    K.HighConfidenceIff(curve, minSamples, answer);
    TaintShows(records, A.TimingsOf(records, A.Effective(p, meta)), meta, d);
  }

  lemma TaintShows(records: seq<RequestRecord>, timing: int -> Report, meta: Option<A.Meta>, d: int)
    requires d in Levels(records) && A.Taints(A.RowsOf(records), d, timing)
    ensures exists i :: 0 <= i < |A.AllStats(records, timing, meta)|
                        && A.AllStats(records, timing, meta)[i].contaminated
  {
    var i :| 0 <= i < |Levels(records)| && Levels(records)[i] == d;
    assert A.Tainted(Levels(records), A.RowsOf(records), d, timing);
    assert A.AllStats(records, timing, meta)[i].contaminated;
  }
}
