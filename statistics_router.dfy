/** The statistics endpoints of pact_backend/routers/statistics.py: folding
    a pair of metrics records into the two persisted histogram documents,
    and reading them back. */
module StatisticsRouter {
  import opened PyBuiltins
  import opened ChatModels
  import opened StatisticsModels

  const PromptType := "prompt_metrics"
  const OptPromptType := "opt_prompt_metrics"

  /** `doc[key][str(value)] += 1`; None where the histogram or the bucket
      does not exist (the KeyError). */
  function Bump(h: map<MetricKey, Histogram>, k: MetricKey, v: Value): Option<map<MetricKey, Histogram>> {
    var b := Str(v);
    if k in h && b in h[k] then Some(h[k := h[k][b := h[k][b] + 1]]) else None
  }

  /** The first `n` rounds of the `for key, value in metrics.dict().items()`
      loop, for one document and one record; None as soon as one increment
      raises. */
  function FoldUpTo(h: map<MetricKey, Histogram>, m: MetricsModel, n: nat): Option<map<MetricKey, Histogram>>
    requires n <= |MetricKeys|
  {
    if n == 0 then Some(h)
    else
      match FoldUpTo(h, m, n - 1)
      case None => None
      case Some(h') => Bump(h', MetricKeys[n - 1], Field(m, MetricKeys[n - 1]))
  }

  /** One document after one record is folded in. */
  function FoldDoc(d: StatisticsDoc, m: MetricsModel): Option<StatisticsDoc> {
    match FoldUpTo(d.hists, m, |MetricKeys|)
    case None => None
    case Some(h) => Some(StatisticsDoc(d.metricsType, d.count + 1, h))
  }

  /** The document `find_one` yields for `t`, or the zeroed one. */
  function Loaded(docs: map<string, StatisticsDoc>, t: string): StatisticsDoc {
    if t in docs then docs[t] else NewStatistics(t)
  }

  /** Every stored document is keyed by its own metrics_type and keeps the
      histogram invariant. */
  predicate StoreConsistent(docs: map<string, StatisticsDoc>) {
    forall t :: t in docs ==> docs[t].metricsType == t && Consistent(docs[t])
  }

  /** Folding a sequence of records, one request each. */
  function FoldAll(d: StatisticsDoc, ms: seq<MetricsModel>): Option<StatisticsDoc>
    decreases |ms|
  {
    if ms == [] then Some(d)
    else
      match FoldDoc(d, ms[0])
      case None => None
      case Some(d') => FoldAll(d', ms[1..])
  }

  // ---------------------------------------------------------------------
  // Properties of the fold

  /** Once an increment raises, the rest of the loop does not matter. */
  lemma {:induction false} FoldUpToNoneExtends(h: map<MetricKey, Histogram>, m: MetricsModel, n: nat, n': nat)
    requires n <= n' <= |MetricKeys|
    requires FoldUpTo(h, m, n) == None
    ensures FoldUpTo(h, m, n') == None
    decreases n'
  {
    if n' > n {
      FoldUpToNoneExtends(h, m, n, n' - 1);
    }
  }

  /** Each of the first `n` metrics finds its histogram and, in it, the
      bucket `str(value)`. */
  predicate BucketsPresent(h: map<MetricKey, Histogram>, m: MetricsModel, n: nat)
    requires n <= |MetricKeys|
  {
    forall j :: 0 <= j < n ==> MetricKeys[j] in h && Str(Field(m, MetricKeys[j])) in h[MetricKeys[j]]
  }

  /** `b` has the histograms of `a`, each with the same buckets. */
  predicate SameShape(a: map<MetricKey, Histogram>, b: map<MetricKey, Histogram>) {
    b.Keys == a.Keys && forall k :: k in a ==> b[k].Keys == a[k].Keys
  }

  lemma SameShapeTrans(a: map<MetricKey, Histogram>, b: map<MetricKey, Histogram>, c: map<MetricKey, Histogram>)
    requires SameShape(a, b) && SameShape(b, c)
    ensures SameShape(a, c)
  {
  }

  lemma SameShapeBucket(a: map<MetricKey, Histogram>, b: map<MetricKey, Histogram>, k: MetricKey, l: string)
    requires SameShape(a, b)
    ensures (k in a && l in a[k]) <==> (k in b && l in b[k])
  {
  }

  /** Presence of the buckets up to `n`, one metric at a time. */
  lemma BucketsPresentStep(h: map<MetricKey, Histogram>, m: MetricsModel, n: nat)
    requires 0 < n <= |MetricKeys|
    ensures BucketsPresent(h, m, n) <==>
              BucketsPresent(h, m, n - 1) && MetricKeys[n - 1] in h && Str(Field(m, MetricKeys[n - 1])) in h[MetricKeys[n - 1]]
  {
  }

  /** The first `n` rounds succeed exactly when each visited key finds its
      histogram and its bucket; they never add or remove a histogram or a
      bucket. */
  lemma FoldUpToShape(h: map<MetricKey, Histogram>, m: MetricsModel, n: nat)
    requires n <= |MetricKeys|
    ensures FoldUpTo(h, m, n).Some? <==> BucketsPresent(h, m, n)
    ensures FoldUpTo(h, m, n).Some? ==> SameShape(h, FoldUpTo(h, m, n).value)
  {
    FoldUpToKeepsShape(h, m, n);
    FoldUpToDefined(h, m, n);
  }

  /** Successful rounds add or remove no histogram and no bucket. */
  lemma {:induction false} FoldUpToKeepsShape(h: map<MetricKey, Histogram>, m: MetricsModel, n: nat)
    requires n <= |MetricKeys|
    ensures FoldUpTo(h, m, n).Some? ==> SameShape(h, FoldUpTo(h, m, n).value)
  {
    if n > 0 && FoldUpTo(h, m, n).Some? {
      FoldUpToKeepsShape(h, m, n - 1);
      var prev := FoldUpTo(h, m, n - 1).value;
      FoldUpToStep(h, m, n - 1, prev);
      BumpShape(prev, MetricKeys[n - 1], Field(m, MetricKeys[n - 1]));
      SameShapeTrans(h, prev, FoldUpTo(h, m, n).value);
    }
  }

  /** The first `n` rounds succeed exactly when each visited key finds its
      histogram and its bucket. */
  lemma {:induction false} FoldUpToDefined(h: map<MetricKey, Histogram>, m: MetricsModel, n: nat)
    requires n <= |MetricKeys|
    ensures FoldUpTo(h, m, n).Some? <==> BucketsPresent(h, m, n)
  {
    if n > 0 {
      FoldUpToDefined(h, m, n - 1);
      BucketsPresentStep(h, m, n);
      if FoldUpTo(h, m, n - 1).Some? {
        var last := MetricKeys[n - 1];
        var prev := FoldUpTo(h, m, n - 1).value;
        FoldUpToKeepsShape(h, m, n - 1);
        FoldUpToStep(h, m, n - 1, prev);
        BumpShape(prev, last, Field(m, last));
        SameShapeBucket(h, prev, last, Str(Field(m, last)));
      }
    }
  }

  /** An increment succeeds exactly when the histogram and the bucket
      exist, and adds neither. */
  lemma BumpShape(h: map<MetricKey, Histogram>, k0: MetricKey, v: Value)
    ensures Bump(h, k0, v).Some? <==> k0 in h && Str(v) in h[k0]
    ensures Bump(h, k0, v).Some? ==> SameShape(h, Bump(h, k0, v).value)
  {
  }

  /** Round `n + 1` of the loop: one more increment. */
  lemma FoldUpToStep(h: map<MetricKey, Histogram>, m: MetricsModel, n: nat, h': map<MetricKey, Histogram>)
    requires n < |MetricKeys| && FoldUpTo(h, m, n) == Some(h')
    ensures FoldUpTo(h, m, n + 1) == Bump(h', MetricKeys[n], Field(m, MetricKeys[n]))
  {
  }

  /** A histogram with bucket `b` one higher. */
  function Incremented(h: Histogram, b: string): (r: Histogram)
    requires b in h
    ensures r.Keys == h.Keys
    ensures r[b] == h[b] + 1 && forall l :: l in h && l != b ==> r[l] == h[l]
  {
    h[b := h[b] + 1]
  }

  /** After `n` rounds, the histogram of one metric: its bucket
      `str(value)` raised by one if the metric was visited, as it was
      otherwise. */
  lemma {:induction false} FoldUpToAt(h: map<MetricKey, Histogram>, m: MetricsModel, n: nat, k: MetricKey)
    requires n <= |MetricKeys|
    requires FoldUpTo(h, m, n).Some? && k in h
    ensures k in FoldUpTo(h, m, n).value
    ensures Index(k) < n ==> Str(Field(m, k)) in h[k]
    ensures FoldUpTo(h, m, n).value[k] == if Index(k) < n then Incremented(h[k], Str(Field(m, k))) else h[k]
  {
    if n > 0 {
      var last := MetricKeys[n - 1];
      var prev := FoldUpTo(h, m, n - 1).value;
      FoldUpToStep(h, m, n - 1, prev);
      FoldUpToAt(h, m, n - 1, k);
      BumpAt(prev, last, Field(m, last), k);
      IndexOfKey(n - 1);
      if k == last {
        assert prev[k] == h[k];
      } else {
        assert Index(k) != n - 1;
      }
    }
  }

  /** One increment touches only the histogram it names. */
  lemma BumpAt(h: map<MetricKey, Histogram>, k0: MetricKey, v: Value, k: MetricKey)
    requires Bump(h, k0, v).Some? && k in h
    ensures k in Bump(h, k0, v).value
    ensures k == k0 ==> Str(v) in h[k]
    ensures Bump(h, k0, v).value[k] == if k == k0 then Incremented(h[k], Str(v)) else h[k]
  {
  }

  /** After `n` rounds, every metric visited so far had its bucket
      `str(value)` raised by one, and every other histogram is as it was; no
      histogram appears or disappears. */
  lemma FoldUpToCounts(h: map<MetricKey, Histogram>, m: MetricsModel, n: nat)
    requires n <= |MetricKeys|
    requires FoldUpTo(h, m, n).Some?
    ensures FoldUpTo(h, m, n).value.Keys == h.Keys
    ensures forall k :: k in h && Index(k) < n ==> Str(Field(m, k)) in h[k]
    ensures forall k :: k in h ==>
              FoldUpTo(h, m, n).value[k] == if Index(k) < n then Incremented(h[k], Str(Field(m, k))) else h[k]
  {
    FoldUpToShape(h, m, n);
    forall k | k in h
      ensures Index(k) < n ==> Str(Field(m, k)) in h[k]
      ensures FoldUpTo(h, m, n).value[k] == if Index(k) < n then Incremented(h[k], Str(Field(m, k))) else h[k]
    {
      FoldUpToAt(h, m, n, k);
    }
  }

  predicate Distinct(labels: seq<string>) {
    forall i, j :: 0 <= i < j < |labels| ==> labels[i] != labels[j]
  }

  /** Raising one bucket raises a sum over distinct labels by one exactly
      when the bucket is among them. */
  lemma {:induction false} SumOverIncrement(h: Histogram, labels: seq<string>, b: string)
    requires b in h
    requires forall l :: l in labels ==> l in h
    requires Distinct(labels)
    ensures SumOver(Incremented(h, b), labels) == SumOver(h, labels) + (if b in labels then 1 else 0)
    decreases |labels|
  {
    if labels != [] {
      assert Distinct(labels[1..]) by {
        forall i, j | 0 <= i < j < |labels| - 1 ensures labels[1..][i] != labels[1..][j] {
          assert labels[1..][i] == labels[i + 1] && labels[1..][j] == labels[j + 1];
        }
      }
      SumOverIncrement(h, labels[1..], b);
      assert b in labels <==> b == labels[0] || b in labels[1..];
      assert labels[0] !in labels[1..] by {
        forall j | 0 <= j < |labels| - 1 ensures labels[1..][j] != labels[0] {
          assert labels[1..][j] == labels[j + 1];
        }
      }
    }
  }

  /** The effect of one successful fold on a document: `count` goes up by
      one, in the histogram of every metric the bucket `str(value)` goes up
      by one, and `metrics_type` is kept. */
  lemma FoldDocEffect(d: StatisticsDoc, m: MetricsModel)
    requires FoldDoc(d, m).Some?
    ensures var d' := FoldDoc(d, m).value;
            && d'.metricsType == d.metricsType
            && d'.count == d.count + 1
            && d'.hists.Keys == d.hists.Keys
            && (forall k :: k in d.hists ==> Str(Field(m, k)) in d.hists[k])
            && (forall k :: k in d.hists ==> d'.hists[k] == Incremented(d.hists[k], Str(Field(m, k))))
  {
    FoldUpToCounts(d.hists, m, |MetricKeys|);
  }

  lemma BucketOfConsistent(d: StatisticsDoc, m: MetricsModel, k: MetricKey)
    requires Consistent(d)
    ensures k in d.hists
    ensures Str(Field(m, k)) in d.hists[k] <==> OnScale(m, k)
  {
    BucketExists(m, k);
  }

  /** On a consistent document the fold raises exactly when some integer
      score has no bucket, that is lies outside 0..5 (-1 or 6, say). */
  lemma FoldDefinedIff(d: StatisticsDoc, m: MetricsModel)
    requires Consistent(d)
    ensures FoldDoc(d, m).Some? <==> ValidRecord(m)
  {
    FoldUpToDefined(d.hists, m, |MetricKeys|);
    BucketsPresentIffValid(d, m);
  }

  /** On a consistent document every bucket the fold visits exists exactly
      when the record is on the scale. */
  lemma BucketsPresentIffValid(d: StatisticsDoc, m: MetricsModel)
    requires Consistent(d)
    ensures BucketsPresent(d.hists, m, |MetricKeys|) <==> ValidRecord(m)
  {
    if ValidRecord(m) {
      forall j | 0 <= j < |MetricKeys|
        ensures MetricKeys[j] in d.hists && Str(Field(m, MetricKeys[j])) in d.hists[MetricKeys[j]]
      {
        BucketOfConsistent(d, m, MetricKeys[j]);
      }
    } else {
      var k :| !OnScale(m, k);
      BucketOfConsistent(d, m, k);
      assert MetricKeys[Index(k)] == k;
    }
  }

  /** No metric lists a bucket twice. */
  lemma LabelsDistinct(k: MetricKey)
    ensures Distinct(Labels(k))
  {
    if k == Jailbreak {
      assert Labels(k) == FlagLabels;
    } else {
      assert Labels(k) == ScoreLabels;
    }
  }

  /** Raising one existing bucket of a consistent histogram gives a
      consistent histogram for a count one higher. */
  lemma IncrementedConsistent(h: Histogram, k: MetricKey, count: int, b: string)
    requires HistogramConsistent(h, k, count)
    requires b in h
    ensures HistogramConsistent(Incremented(h, b), k, count + 1)
  {
    LabelsDistinct(k);
    assert b in Labels(k);
    SumOverIncrement(h, Labels(k), b);
  }

  lemma FoldedHistogram(d: StatisticsDoc, m: MetricsModel, k: MetricKey)
    requires Consistent(d)
    requires FoldDoc(d, m).Some?
    ensures k in FoldDoc(d, m).value.hists
    ensures HistogramConsistent(FoldDoc(d, m).value.hists[k], k, d.count + 1)
  {
    FoldDocEffect(d, m);
    IncrementedConsistent(d.hists[k], k, d.count, Str(Field(m, k)));
  }

  /** A successful fold keeps the invariant: every histogram still sums to
      the new count. */
  lemma FoldPreservesConsistent(d: StatisticsDoc, m: MetricsModel)
    requires Consistent(d)
    requires FoldDoc(d, m).Some?
    ensures Consistent(FoldDoc(d, m).value)
  {
    var d' := FoldDoc(d, m).value;
    FoldDocEffect(d, m);
    forall k: MetricKey
      ensures k in d'.hists && HistogramConsistent(d'.hists[k], k, d'.count)
    {
      FoldedHistogram(d, m, k);
    }
  }

  /** Starting from a consistent document, any sequence of on-scale records
      folds without error into a document whose count has grown by the
      number of records and whose every histogram sums to that count. */
  lemma {:induction false} FoldAllConsistent(d: StatisticsDoc, ms: seq<MetricsModel>)
    requires Consistent(d)
    requires forall i :: 0 <= i < |ms| ==> ValidRecord(ms[i])
    ensures FoldAll(d, ms).Some?
    ensures Consistent(FoldAll(d, ms).value)
    ensures FoldAll(d, ms).value.count == d.count + |ms|
    decreases |ms|
  {
    if ms != [] {
      FoldDefinedIff(d, ms[0]);
      FoldPreservesConsistent(d, ms[0]);
      FoldDocEffect(d, ms[0]);
      FoldAllConsistent(FoldDoc(d, ms[0]).value, ms[1..]);
    }
  }

  /** In particular from a freshly created document: after `n` on-scale
      records the count is `n`. */
  lemma FoldAllFromNew(t: string, ms: seq<MetricsModel>)
    requires forall i :: 0 <= i < |ms| ==> ValidRecord(ms[i])
    ensures FoldAll(NewStatistics(t), ms).Some?
    ensures Consistent(FoldAll(NewStatistics(t), ms).value)
    ensures FoldAll(NewStatistics(t), ms).value.count == |ms|
  {
    NewStatisticsConsistent(t);
    FoldAllConsistent(NewStatistics(t), ms);
  }

  /** The fold is not idempotent: the same record folded twice raises the
      count by two, and the second result differs from the first. */
  lemma FoldTwiceCountsTwice(d: StatisticsDoc, m: MetricsModel)
    requires Consistent(d) && ValidRecord(m)
    ensures FoldDoc(d, m).Some?
    ensures FoldDoc(FoldDoc(d, m).value, m).Some?
    ensures FoldDoc(FoldDoc(d, m).value, m).value.count == d.count + 2
    ensures FoldDoc(FoldDoc(d, m).value, m) != FoldDoc(d, m)
  {
    FoldDefinedIff(d, m);
    FoldPreservesConsistent(d, m);
    var d1 := FoldDoc(d, m).value;
    FoldDefinedIff(d1, m);
    FoldDocEffect(d, m);
    FoldDocEffect(d1, m);
  }

  /** What `find_one` or the default yields is consistent and carries the
      requested metrics_type. */
  lemma LoadedConsistent(docs: map<string, StatisticsDoc>, t: string)
    requires StoreConsistent(docs)
    ensures Loaded(docs, t).metricsType == t && Consistent(Loaded(docs, t))
  {
    NewStatisticsConsistent(t);
  }

  /** The store after `update_statistics`: both documents folded and
      written back, or None when an increment raises and nothing is
      written. */
  function Update(docs: map<string, StatisticsDoc>, body: StatsRequest): Option<map<string, StatisticsDoc>> {
    var p := FoldDoc(Loaded(docs, PromptType), body.metrics);
    var o := FoldDoc(Loaded(docs, OptPromptType), body.optMetrics);
    if p.Some? && o.Some? then Some(docs[PromptType := p.value][OptPromptType := o.value]) else None
  }

  /** On a consistent store the update fails exactly when one of the two
      records has a score outside 0..5. */
  lemma UpdateDefinedIff(docs: map<string, StatisticsDoc>, body: StatsRequest)
    requires StoreConsistent(docs)
    ensures Update(docs, body).Some? <==> ValidRecord(body.metrics) && ValidRecord(body.optMetrics)
  {
    LoadedConsistent(docs, PromptType);
    LoadedConsistent(docs, OptPromptType);
    FoldDefinedIff(Loaded(docs, PromptType), body.metrics);
    FoldDefinedIff(Loaded(docs, OptPromptType), body.optMetrics);
  }

  /** A successful update leaves every stored document consistent and keyed
      by its own metrics_type, with both counts one higher than before. */
  lemma UpdatePreservesStore(docs: map<string, StatisticsDoc>, body: StatsRequest)
    requires StoreConsistent(docs)
    requires Update(docs, body).Some?
    ensures StoreConsistent(Update(docs, body).value)
    ensures Update(docs, body).value[PromptType].count == Loaded(docs, PromptType).count + 1
    ensures Update(docs, body).value[OptPromptType].count == Loaded(docs, OptPromptType).count + 1
  {
    var p := FoldDoc(Loaded(docs, PromptType), body.metrics).value;
    var o := FoldDoc(Loaded(docs, OptPromptType), body.optMetrics).value;
    LoadedConsistent(docs, PromptType);
    LoadedConsistent(docs, OptPromptType);
    FoldPreservesConsistent(Loaded(docs, PromptType), body.metrics);
    FoldPreservesConsistent(Loaded(docs, OptPromptType), body.optMetrics);
    FoldDocEffect(Loaded(docs, PromptType), body.metrics);
    FoldDocEffect(Loaded(docs, OptPromptType), body.optMetrics);
    var docs' := docs[PromptType := p][OptPromptType := o];
    assert Update(docs, body).value == docs';
    forall t | t in docs' ensures docs'[t].metricsType == t && Consistent(docs'[t]) {
      if t != PromptType && t != OptPromptType {
        assert docs'[t] == docs[t];
      }
    }
  }

  /** A successful update writes exactly the two documents and leaves
      every other stored document as it was. */
  lemma UpdateKeepsOthers(docs: map<string, StatisticsDoc>, body: StatsRequest)
    requires Update(docs, body).Some?
    ensures Update(docs, body).value.Keys == docs.Keys + {PromptType, OptPromptType}
    ensures forall t :: t in docs && t != PromptType && t != OptPromptType ==> Update(docs, body).value[t] == docs[t]
  {
  }

  /** A successful update folds `metrics` into `prompt_metrics` and
      `opt_metrics` into `opt_prompt_metrics`: in each, exactly the bucket
      named after the record's value goes up by one, for every metric. */
  lemma UpdateRoutesRecords(docs: map<string, StatisticsDoc>, body: StatsRequest)
    requires Update(docs, body).Some?
    ensures var p := Loaded(docs, PromptType);
            && Update(docs, body).value[PromptType].hists.Keys == p.hists.Keys
            && (forall k :: k in p.hists ==>
                  Str(Field(body.metrics, k)) in p.hists[k] &&
                  Update(docs, body).value[PromptType].hists[k] == Incremented(p.hists[k], Str(Field(body.metrics, k))))
    ensures var o := Loaded(docs, OptPromptType);
            && Update(docs, body).value[OptPromptType].hists.Keys == o.hists.Keys
            && (forall k :: k in o.hists ==>
                  Str(Field(body.optMetrics, k)) in o.hists[k] &&
                  Update(docs, body).value[OptPromptType].hists[k] == Incremented(o.hists[k], Str(Field(body.optMetrics, k))))
  {
    var p' := FoldDoc(Loaded(docs, PromptType), body.metrics).value;
    var o' := FoldDoc(Loaded(docs, OptPromptType), body.optMetrics).value;
    assert Update(docs, body).value[PromptType] == p';
    assert Update(docs, body).value[OptPromptType] == o';
    FoldDocEffect(Loaded(docs, PromptType), body.metrics);
    FoldDocEffect(Loaded(docs, OptPromptType), body.optMetrics);
  }

  /** The `for key, value in ...` loop of `update_statistics` on one
      document's histograms: one bucket per metric goes up by one; None once
      an increment raises. */
  method FoldHistograms(hists: map<MetricKey, Histogram>, m: MetricsModel) returns (r: Option<map<MetricKey, Histogram>>)
    ensures r == FoldUpTo(hists, m, |MetricKeys|)
  {
    var h := hists;
    var i := 0;
    while i < |MetricKeys|
      invariant 0 <= i <= |MetricKeys|
      invariant FoldUpTo(hists, m, i) == Some(h)
    {
      var key := MetricKeys[i];
      var b := Str(Field(m, key));
      FoldUpToStep(hists, m, i, h);
      if !(key in h && b in h[key]) {
        FoldUpToNoneExtends(hists, m, i + 1, |MetricKeys|);
        return None;
      }
      h := h[key := h[key][b := h[key][b] + 1]];
      assert FoldUpTo(hists, m, i + 1) == Some(h);
      i := i + 1;
    }
    r := Some(h);
  }

  // ---------------------------------------------------------------------
  // The collection

  /** The `statistics` collection, keyed by metrics_type. */
  class StatisticsCollection {
    var docs: map<string, StatisticsDoc>

    constructor ()
      ensures docs == map[]
    {
      docs := map[];
    }

    /** `update_statistics`: load or create both documents, raise both counts,
        raise one bucket per metric in each, then write both back. If any
        increment raises, the reply is 500 and nothing is written. */
    method UpdateStatistics(body: StatsRequest) returns (status: int)
      modifies this
      ensures Update(old(docs), body).Some? ==> status == 200 && docs == Update(old(docs), body).value
      ensures Update(old(docs), body).None? ==> status == 500 && docs == old(docs)
      ensures StoreConsistent(old(docs)) ==> StoreConsistent(docs)
    {
      var prompt := Loaded(docs, PromptType);
      var opt := Loaded(docs, OptPromptType);
      var ph := FoldHistograms(prompt.hists, body.metrics);
      var oh := FoldHistograms(opt.hists, body.optMetrics);
      if ph.None? || oh.None? {
        return 500;
      }
      docs := docs[PromptType := StatisticsDoc(prompt.metricsType, prompt.count + 1, ph.value)]
                  [OptPromptType := StatisticsDoc(opt.metricsType, opt.count + 1, oh.value)];
      status := 200;
      if StoreConsistent(old(docs)) {
        UpdatePreservesStore(old(docs), body);
      }
    }

    /** `get_statistics`: both documents as stored, or zeroed defaults for a
        missing one; nothing is written. */
    method GetStatistics() returns (prompt: StatisticsDoc, opt: StatisticsDoc)
      ensures prompt == Loaded(docs, PromptType) && opt == Loaded(docs, OptPromptType)
      ensures StoreConsistent(docs) ==>
                Consistent(prompt) && Consistent(opt) &&
                prompt.metricsType == PromptType && opt.metricsType == OptPromptType
    {
      prompt := Loaded(docs, PromptType);
      opt := Loaded(docs, OptPromptType);
      if StoreConsistent(docs) {
        LoadedConsistent(docs, PromptType);
        LoadedConsistent(docs, OptPromptType);
      }
    }
  }
}
