/** The statistics document of pact_backend/models/statistics.py: a count
    and one histogram per metric, and the request the fold consumes. */
module StatisticsModels {
  import opened PyBuiltins
  import opened ChatModels

  /** Bucket label to number of records that fell into it. */
  type Histogram = map<string, int>

  /** The buckets of an integer metric, and those of the jailbreak flag. */
  const ScoreLabels: seq<string> := ["0", "1", "2", "3", "4", "5"]
  const FlagLabels: seq<string> := ["True", "False"]

  /** The bucket labels of the histogram kept for `key`. */
  function Labels(k: MetricKey): seq<string> {
    if k == Jailbreak then FlagLabels else ScoreLabels
  }

  /** `default_metrics()`: the six score buckets, all empty. */
  function DefaultMetrics(): (h: Histogram)
    ensures h.Keys == {"0", "1", "2", "3", "4", "5"}
    ensures forall b :: b in h ==> h[b] == 0
  {
    map["0" := 0, "1" := 0, "2" := 0, "3" := 0, "4" := 0, "5" := 0]
  }

  /** The default factory of the `jailbreak` field. */
  function DefaultJailbreak(): (h: Histogram)
    ensures h.Keys == {"True", "False"}
    ensures forall b :: b in h ==> h[b] == 0
  {
    map["True" := 0, "False" := 0]
  }

  /** A statistics document without its store-assigned `_id`; `hists` maps
      each metric to its histogram, stored under the field `Name(k)`. */
  datatype StatisticsDoc = StatisticsDoc(metricsType: string, count: int, hists: map<MetricKey, Histogram>)

  /** The statistics `RequestModel`: one record for the original prompt and
      one for the optimised prompt. */
  datatype StatsRequest = StatsRequest(metrics: MetricsModel, optMetrics: MetricsModel)

  /** `StatisticsModel(metrics_type=t).dict()`: a zeroed document. */
  function NewStatistics(metricsType: string): (d: StatisticsDoc)
    ensures d.metricsType == metricsType && d.count == 0
    ensures forall k :: k in d.hists
    ensures forall k :: k != Jailbreak ==> d.hists[k] == DefaultMetrics()
    ensures d.hists[Jailbreak] == DefaultJailbreak()
  {
    EveryKeyListed();
    StatisticsDoc(metricsType, 0,
      map k | k in MetricKeys :: if k == Jailbreak then DefaultJailbreak() else DefaultMetrics())
  }

  /** Sum of the buckets named in `labels`. */
  function SumOver(h: Histogram, labels: seq<string>): int
    requires forall l :: l in labels ==> l in h
    decreases |labels|
  {
    if labels == [] then 0 else h[labels[0]] + SumOver(h, labels[1..])
  }

  /** A histogram for `key` that has exactly that metric's buckets, none
      negative, summing to `count`. */
  predicate HistogramConsistent(h: Histogram, k: MetricKey, count: int) {
    && h.Keys == (set l | l in Labels(k))
    && (forall l :: l in h ==> h[l] >= 0)
    && SumOver(h, Labels(k)) == count
  }

  /** The document invariant: a non-negative count, and for every metric a
      histogram whose buckets sum to that count. */
  predicate Consistent(d: StatisticsDoc) {
    && d.count >= 0
    && forall k: MetricKey :: k in d.hists && HistogramConsistent(d.hists[k], k, d.count)
  }

  /** A record whose integer scores all lie on the 0..5 scale. */
  predicate ValidRecord(m: MetricsModel) {
    forall k :: OnScale(m, k)
  }

  /** The field `k` of `m` is the jailbreak flag or an integer in 0..5. */
  predicate OnScale(m: MetricsModel, k: MetricKey) {
    k == Jailbreak || 0 <= Field(m, k).i <= 5
  }

  /** A freshly created document satisfies the invariant with count 0. */
  lemma NewStatisticsConsistent(t: string)
    ensures Consistent(NewStatistics(t))
  {
    var d := NewStatistics(t);
    forall k: MetricKey
      ensures k in d.hists && HistogramConsistent(d.hists[k], k, 0)
    {
      if k == Jailbreak {
        JailbreakDefaultConsistent();
      } else {
        ScoreDefaultConsistent(k);
      }
    }
  }

  /** The zeroed score histogram suits every integer metric. */
  lemma ScoreDefaultConsistent(k: MetricKey)
    requires k != Jailbreak
    ensures HistogramConsistent(DefaultMetrics(), k, 0)
  {
    assert Labels(k) == ScoreLabels;
    assert SumOver(DefaultMetrics(), ScoreLabels) == 0;
  }

  /** The zeroed flag histogram suits the jailbreak metric. */
  lemma JailbreakDefaultConsistent()
    ensures HistogramConsistent(DefaultJailbreak(), Jailbreak, 0)
  {
    assert SumOver(DefaultJailbreak(), FlagLabels) == 0;
  }

  /** Exactly the values the fold can bucket: `str(v)` is one of the labels
      of `key` iff the field is on the scale (or is the bool flag). */
  lemma BucketExists(m: MetricsModel, k: MetricKey)
    ensures Str(Field(m, k)) in Labels(k) <==> OnScale(m, k)
  {
    if k != Jailbreak {
      IntToStrIsDigitLabel(Field(m, k).i);
      assert (set l | l in ScoreLabels) == {"0", "1", "2", "3", "4", "5"};
    }
  }
}
