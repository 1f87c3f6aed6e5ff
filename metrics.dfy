/** `calculate_metrics` (zero-guarded ratios per table entry) and the two
    timing averages over `questions_data`. Ratios are exact reals. */
module Metrics {
  import opened Questions
  import opened Tables

  /** One entry of a metrics table. */
  datatype Metric = Metric(attempted: nat, correct: nat, accuracy: real, avgTime: real)

  /** The metrics of one table entry: accuracy in percent and mean time per
      attempt, both 0 when there are no attempts. */
  function MetricOf(p: Perf): (m: Metric)
    ensures m.attempted == p.attempted && m.correct == p.correct
    ensures p.attempted > 0 ==>
              m.accuracy * p.attempted as real == 100.0 * p.correct as real &&
              m.avgTime * p.attempted as real == p.timeTaken
    ensures p.attempted == 0 ==> m.accuracy == 0.0 && m.avgTime == 0.0
    ensures p.correct <= p.attempted ==> 0.0 <= m.accuracy <= 100.0
  {
    if p.attempted > 0 then
      var a := p.attempted as real;
      var share := p.correct as real / a;
      assert share * a == p.correct as real;
      assert p.correct <= p.attempted ==> share <= 1.0;
      Metric(p.attempted, p.correct, share * 100.0, p.timeTaken / a)
    else
      Metric(p.attempted, p.correct, 0.0, 0.0)
  }

  /** The metrics table of a performance table: same keys, entry by entry. */
  function MetricsTable<K>(perf: map<K, Perf>): map<K, Metric> {
    map k | k in perf :: MetricOf(perf[k])
  }

  /** `calculate_metrics`: one pass over the items of a performance table. */
  method CalculateMetrics<K>(perf: map<K, Perf>) returns (metrics: map<K, Metric>)
    ensures metrics.Keys == perf.Keys
    ensures forall k :: k in perf ==> metrics[k] == MetricOf(perf[k])
  {
    metrics := map[];
    var pending := perf.Keys;
    while pending != {}
      invariant pending <= perf.Keys
      invariant metrics.Keys == perf.Keys - pending
      invariant forall k :: k in metrics ==> metrics[k] == MetricOf(perf[k])
      decreases pending
    {
      var k :| k in pending;
      metrics := metrics[k := MetricOf(perf[k])];
      pending := pending - {k};
    }
  }

  /** A table whose entries all have `1 <= attempted` and `correct <= attempted`
      turns into metrics with the counts copied and accuracy within 0..100. */
  lemma MetricsTableSound<K>(perf: map<K, Perf>)
    requires forall k :: k in perf ==> 1 <= perf[k].attempted && perf[k].correct <= perf[k].attempted
    ensures MetricsTable(perf).Keys == perf.Keys
    ensures forall k :: k in perf ==>
              var m := MetricsTable(perf)[k];
              m.attempted == perf[k].attempted && m.correct == perf[k].correct &&
              0.0 <= m.accuracy <= 100.0 &&
              m.accuracy * m.attempted as real == 100.0 * m.correct as real &&
              m.avgTime * m.attempted as real == perf[k].timeTaken
  {
  }

  function MetricAttempts(m: Metric): nat {
    m.attempted
  }

  function MetricCorrects(m: Metric): nat {
    m.correct
  }

  /** The metrics table keeps the sums of the attempt and correct counts. */
  lemma {:induction false} MetricsTableTotals<K>(perf: map<K, Perf>)
    ensures Total(MetricsTable(perf), MetricAttempts) == Total(perf, Attempts)
    ensures Total(MetricsTable(perf), MetricCorrects) == Total(perf, Corrects)
    decreases |perf|
  {
    if perf == map[] {
      assert MetricsTable(perf) == map[];
    } else {
      var k :| k in perf;
      var rest := perf - {k};
      assert rest.Keys == perf.Keys - {k};
      MetricsTableTotals(rest);
      TotalRemove(perf, Attempts, k);
      TotalRemove(perf, Corrects, k);
      TotalRemove(MetricsTable(perf), MetricAttempts, k);
      TotalRemove(MetricsTable(perf), MetricCorrects, k);
      assert MetricsTable(perf) - {k} == MetricsTable(rest);
    }
  }

  /** The metrics of a folded table, key by key, as counts over the records:
      a key is present once some attempted record credits it, and its entry
      holds that many attempts, the correct ones among them, accuracy as
      their percentage and the mean credited time. */
  lemma FoldedMetricsAt<K>(rs: seq<QuestionRecord>, keysOf: QuestionRecord -> seq<K>, k: K)
    ensures k in MetricsTable(FoldTable(rs, keysOf)) <==> AttemptHits(rs, keysOf, k) > 0
    ensures k in MetricsTable(FoldTable(rs, keysOf)) ==>
              MetricsTable(FoldTable(rs, keysOf))[k] ==
                MetricOf(Perf(AttemptHits(rs, keysOf, k), CorrectHits(rs, keysOf, k), TimeHits(rs, keysOf, k)))
    ensures k in MetricsTable(FoldTable(rs, keysOf)) ==>
              var m := MetricsTable(FoldTable(rs, keysOf))[k];
              1 <= m.attempted && m.correct <= m.attempted && 0.0 <= m.accuracy <= 100.0
  {
    FoldTableAt(rs, keysOf, k);
    CorrectHitsAtMostAttemptHits(rs, keysOf, k);
  }

  /** All entries of the metrics of a folded table at once. */
  lemma FoldedMetricsSound<K>(rs: seq<QuestionRecord>, keysOf: QuestionRecord -> seq<K>)
    ensures var t := MetricsTable(FoldTable(rs, keysOf));
            forall k :: k in t ==>
              && 1 <= t[k].attempted == AttemptHits(rs, keysOf, k)
              && t[k].correct == CorrectHits(rs, keysOf, k)
              && t[k].correct <= t[k].attempted
              && 0.0 <= t[k].accuracy <= 100.0
  {
    var t := MetricsTable(FoldTable(rs, keysOf));
    forall k | k in t
      ensures && 1 <= t[k].attempted == AttemptHits(rs, keysOf, k)
              && t[k].correct == CorrectHits(rs, keysOf, k)
              && t[k].correct <= t[k].attempted
              && 0.0 <= t[k].accuracy <= 100.0
    {
      FoldedMetricsAt(rs, keysOf, k);
    }
  }

  // ---------------------------------------------------------------------
  // Timing averages.

  /** `[q['time_taken'] for q in questions_data if q['attempted'] and q['correct']]`. */
  function CorrectTimes(rs: seq<QuestionRecord>): (ts: seq<real>)
    ensures |ts| == CountCorrect(rs)
  {
    if rs == [] then []
    else
      var last := rs[|rs| - 1];
      CorrectTimes(rs[..|rs| - 1]) + (if last.attempted && last.correct then [last.timeTaken] else [])
  }

  /** The same for the attempted and not correct records. */
  function IncorrectTimes(rs: seq<QuestionRecord>): (ts: seq<real>)
    ensures |ts| + CountCorrect(rs) == CountAttempted(rs)
  {
    if rs == [] then []
    else
      var last := rs[|rs| - 1];
      IncorrectTimes(rs[..|rs| - 1]) + (if last.attempted && !last.correct then [last.timeTaken] else [])
  }

  /** Which times the two lists hold: a time is in the correct list iff some
      attempted and correct record took it, and in the other list iff some
      attempted and not correct record took it. */
  lemma {:induction false} TimesMembers(rs: seq<QuestionRecord>, t: real)
    ensures t in CorrectTimes(rs) <==>
              exists i :: 0 <= i < |rs| && rs[i].attempted && rs[i].correct && rs[i].timeTaken == t
    ensures t in IncorrectTimes(rs) <==>
              exists i :: 0 <= i < |rs| && rs[i].attempted && !rs[i].correct && rs[i].timeTaken == t
  {
    if rs != [] {
      var n := |rs| - 1;
      TimesMembers(rs[..n], t);
      assert forall i :: 0 <= i < n ==> rs[..n][i] == rs[i];
    }
  }

  function Sum(ts: seq<real>): real {
    if ts == [] then 0.0 else Sum(ts[..|ts| - 1]) + ts[|ts| - 1]
  }

  /** `sum(ts) / len(ts) if ts else 0`. */
  function Mean(ts: seq<real>): (m: real)
    ensures ts != [] ==> m * |ts| as real == Sum(ts)
    ensures ts == [] ==> m == 0.0
  {
    if ts == [] then 0.0 else Sum(ts) / |ts| as real
  }

  lemma {:induction false} SumBounds(ts: seq<real>, lo: real, hi: real)
    requires forall i :: 0 <= i < |ts| ==> lo <= ts[i] <= hi
    ensures Repeated(|ts|, lo) <= Sum(ts) <= Repeated(|ts|, hi)
  {
    if ts != [] {
      SumBounds(ts[..|ts| - 1], lo, hi);
    }
  }

  lemma {:induction false} RepeatedIsProduct(n: nat, t: real)
    ensures Repeated(n, t) == n as real * t
  {
    if n > 0 {
      RepeatedIsProduct(n - 1, t);
    }
  }

  /** The mean lies between the least and the greatest of the times. */
  lemma MeanBounds(ts: seq<real>, lo: real, hi: real)
    requires ts != []
    requires forall i :: 0 <= i < |ts| ==> lo <= ts[i] <= hi
    ensures lo <= Mean(ts) <= hi
  {
    SumBounds(ts, lo, hi);
    RepeatedIsProduct(|ts|, lo);
    RepeatedIsProduct(|ts|, hi);
    QuotientBounds(Sum(ts), |ts| as real, lo, hi);
  }

  lemma QuotientBounds(x: real, n: real, lo: real, hi: real)
    requires n > 0.0 && n * lo <= x <= n * hi
    ensures lo <= x / n <= hi
  {
    var q := x / n;
    assert q * n == x;
    assert (q - lo) * n == x - n * lo;
    assert (hi - q) * n == n * hi - x;
  }

  /** Every attempted record's time goes into exactly one of the two lists,
      and no unattempted record's time goes into either. */
  lemma {:induction false} TimesPartition(rs: seq<QuestionRecord>)
    ensures Sum(CorrectTimes(rs)) + Sum(IncorrectTimes(rs)) == AttemptedTime(rs)
  {
    if rs != [] {
      var n := |rs| - 1;
      TimesPartition(rs[..n]);
      var last := rs[n];
      SumSnoc(CorrectTimes(rs[..n]), if last.attempted && last.correct then [last.timeTaken] else []);
      SumSnoc(IncorrectTimes(rs[..n]), if last.attempted && !last.correct then [last.timeTaken] else []);
    }
  }

  /** Total time over the attempted records. */
  function AttemptedTime(rs: seq<QuestionRecord>): real {
    if rs == [] then 0.0
    else
      var last := rs[|rs| - 1];
      AttemptedTime(rs[..|rs| - 1]) + (if last.attempted then last.timeTaken else 0.0)
  }

  lemma SumSnoc(ts: seq<real>, tail: seq<real>)
    requires |tail| <= 1
    ensures Sum(ts + tail) == Sum(ts) + Sum(tail)
  {
    if tail != [] {
      assert (ts + tail)[..|ts + tail| - 1] == ts;
    } else {
      assert ts + tail == ts;
    }
  }
}
