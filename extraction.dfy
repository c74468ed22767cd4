/**
 * extraction/metricfamilyprocessor.go: turning decoded MetricFamily
 * messages into samples. Each extractor maps one family to an ordered
 * batch of samples; ProcessSingle routes each family to its extractor and
 * hands every batch to an ingester.
 */
module Extraction {
  import opened Wrappers
  import opened GoStrings
  import opened LabelSets
  import opened SeqFacts

  // The decoded protobuf messages; an unset optional field is None.

  datatype LabelPair = LabelPair(name: Option<Bytes>, value: Option<Bytes>)
  datatype Counter = Counter(value: Option<real>)
  datatype Gauge = Gauge(value: Option<real>)
  datatype Quantile = Quantile(quantile: Option<real>, value: Option<real>)
  datatype Summary = Summary(sampleCount: Option<nat>, sampleSum: Option<real>, quantile: seq<Quantile>)
  datatype Metric = Metric(labels: seq<LabelPair>, gauge: Option<Gauge>, counter: Option<Counter>, summary: Option<Summary>)
  datatype MetricType = COUNTER | GAUGE | SUMMARY | UNTYPED
  datatype MetricFamily = MetricFamily(name: Option<Bytes>, help: Option<Bytes>, metricType: Option<MetricType>, metric: seq<Metric>)

  /** A sample handed to the ingester: labels, value and the options' timestamp. */
  datatype Sample = Sample(metric: LabelSet, value: real, timestamp: int)

  /** What fmt.Sprint writes for a float64. Go's float formatting is not part of this model. */
  type FloatText = real -> Bytes

  /** `__name__`: the label holding the metric name. */
  const MetricNameLabel: Bytes := [95, 95, 110, 97, 109, 101, 95, 95]
  /** `quantile` */
  const QuantileLabel: Bytes := [113, 117, 97, 110, 116, 105, 108, 101]
  /** `_sum` and `_count`: the name suffixes of a summary's sum and count samples. */
  const SumSuffix: Bytes := [95, 115, 117, 109]
  const CountSuffix: Bytes := [95, 99, 111, 117, 110, 116]

  /** The label names differ, so neither overrides the other. */
  lemma DistinctLabelNames()
    ensures MetricNameLabel != QuantileLabel
  {
    assert MetricNameLabel[0] != QuantileLabel[0];
  }

  /** f.GetName(): the empty string when unset. */
  function FamilyName(f: MetricFamily): Bytes {
    f.name.GetOr([])
  }

  /**
   * The labels a metric's label pairs produce when written into an empty
   * map in order: a later pair overwrites an earlier one with the same name.
   */
  function UserLabels(pairs: seq<LabelPair>): LabelSet {
    if pairs == [] then map[]
    else
      var p := pairs[|pairs| - 1];
      UserLabels(pairs[..|pairs| - 1])[p.name.GetOr([]) := p.value.GetOr([])]
  }

  /** The names of the user labels are exactly the names of the pairs. */
  lemma {:induction false} UserLabelsKeys(pairs: seq<LabelPair>)
    ensures UserLabels(pairs).Keys == set i | 0 <= i < |pairs| :: pairs[i].name.GetOr([])
  {
    if pairs != [] {
      var init := pairs[..|pairs| - 1];
      UserLabelsKeys(init);
      var last := |pairs| - 1;
      assert (set i | 0 <= i < |pairs| :: pairs[i].name.GetOr([]))
          == (set i | 0 <= i < |init| :: init[i].name.GetOr([])) + {pairs[last].name.GetOr([])} by {
        forall i | 0 <= i < |init| ensures init[i] == pairs[i] { }
      }
    }
  }

  /** The value of a label is that of the last pair with its name. */
  lemma {:induction false} UserLabelsLastWins(pairs: seq<LabelPair>, i: nat)
    requires i < |pairs|
    requires forall j | i < j < |pairs| :: pairs[j].name.GetOr([]) != pairs[i].name.GetOr([])
    ensures pairs[i].name.GetOr([]) in UserLabels(pairs)
    ensures UserLabels(pairs)[pairs[i].name.GetOr([])] == pairs[i].value.GetOr([])
  {
    if i < |pairs| - 1 {
      var init := pairs[..|pairs| - 1];
      assert init[i] == pairs[i];
      UserLabelsLastWins(init, i);
    }
  }

  /** The loop shared by the extractors: copy each pair into a fresh map. */
  method CopyLabels(pairs: seq<LabelPair>) returns (metric: LabelSet)
    ensures metric == UserLabels(pairs)
  {
    metric := map[];
    for i := 0 to |pairs|
      invariant metric == UserLabels(pairs[..i])
    {
      var p := pairs[i];
      assert pairs[..i + 1][..i] == pairs[..i];
      metric := metric[p.name.GetOr([]) := p.value.GetOr([])];
    }
    WholePrefix(pairs);
  }

  // extractCounter and extractGauge

  /** The value a counter or gauge extractor reads from a metric, if the field it looks at is set. */
  function Scalar(m: Metric, kind: MetricType): Option<real> {
    match kind
    case COUNTER => if m.counter.Some? then Some(m.counter.value.value.GetOr(0.0)) else None
    case GAUGE => if m.gauge.Some? then Some(m.gauge.value.value.GetOr(0.0)) else None
    case _ => None
  }

  /** The labels of a counter or gauge sample: the user labels, then the family name. */
  function NamedLabels(pairs: seq<LabelPair>, name: Bytes): LabelSet {
    UserLabels(pairs)[MetricNameLabel := name]
  }

  /** The batch of a counter or gauge family: one sample per metric that has the field set. */
  function ScalarSamples(metrics: seq<Metric>, kind: MetricType, name: Bytes, timestamp: int): seq<Sample> {
    if metrics == [] then []
    else
      var m := metrics[|metrics| - 1];
      ScalarSamples(metrics[..|metrics| - 1], kind, name, timestamp)
        + match Scalar(m, kind)
          case Some(v) => [Sample(NamedLabels(m.labels, name), v, timestamp)]
          case None => []
  }

  /** Batches compose: the samples of a + b are those of a, then those of b. */
  lemma {:induction false} ScalarSamplesAppend(a: seq<Metric>, b: seq<Metric>, kind: MetricType, name: Bytes, timestamp: int)
    ensures ScalarSamples(a + b, kind, name, timestamp)
         == ScalarSamples(a, kind, name, timestamp) + ScalarSamples(b, kind, name, timestamp)
    decreases |b|
  {
    if b == [] {
      assert a + b == a;
    } else {
      var init := b[..|b| - 1];
      assert (a + b)[..|a + b| - 1] == a + init;
      assert (a + b)[|a + b| - 1] == b[|b| - 1];
      ScalarSamplesAppend(a, init, kind, name, timestamp);
      ConcatAssociative(ScalarSamples(a, kind, name, timestamp), ScalarSamples(init, kind, name, timestamp),
                        ScalarSamples([b[|b| - 1]], kind, name, timestamp));
    }
  }

  /** One metric yields one sample when its field is set and none otherwise;
      the sample carries the metric name, the value and the timestamp. */
  lemma ScalarSamplesOfOne(m: Metric, kind: MetricType, name: Bytes, timestamp: int)
    ensures var s := ScalarSamples([m], kind, name, timestamp);
      (Scalar(m, kind).None? <==> s == []) &&
      (Scalar(m, kind).Some? ==>
        |s| == 1 && s[0].value == Scalar(m, kind).value && s[0].timestamp == timestamp &&
        s[0].metric.Keys == UserLabels(m.labels).Keys + {MetricNameLabel} &&
        s[0].metric[MetricNameLabel] == name &&
        forall k | k in UserLabels(m.labels) && k != MetricNameLabel :: s[0].metric[k] == UserLabels(m.labels)[k])
  {
    assert [m][..0] == [];
  }

  /** Every sample of a counter or gauge batch is named after the family and stamped with the timestamp; no more samples than metrics. */
  lemma {:induction false} ScalarSamplesShape(metrics: seq<Metric>, kind: MetricType, name: Bytes, timestamp: int)
    ensures |ScalarSamples(metrics, kind, name, timestamp)| <= |metrics|
    ensures forall s | s in ScalarSamples(metrics, kind, name, timestamp) ::
      s.timestamp == timestamp && MetricNameLabel in s.metric && s.metric[MetricNameLabel] == name
  {
    if metrics != [] {
      ScalarSamplesShape(metrics[..|metrics| - 1], kind, name, timestamp);
    }
  }

  /** extractCounter: the batch of a counter family. */
  method ExtractCounter(f: MetricFamily, timestamp: int) returns (samples: seq<Sample>)
    ensures samples == ScalarSamples(f.metric, COUNTER, FamilyName(f), timestamp)
  {
    samples := [];
    for i := 0 to |f.metric|
      invariant samples == ScalarSamples(f.metric[..i], COUNTER, FamilyName(f), timestamp)
    {
      var m := f.metric[i];
      assert f.metric[..i + 1][..i] == f.metric[..i];
      if m.counter.None? {
        continue;
      }
      var metric := CopyLabels(m.labels);
      metric := metric[MetricNameLabel := FamilyName(f)];
      samples := samples + [Sample(metric, m.counter.value.value.GetOr(0.0), timestamp)];
    }
    WholePrefix(f.metric);
  }

  /** extractGauge: the batch of a gauge family. */
  method ExtractGauge(f: MetricFamily, timestamp: int) returns (samples: seq<Sample>)
    ensures samples == ScalarSamples(f.metric, GAUGE, FamilyName(f), timestamp)
  {
    samples := [];
    for i := 0 to |f.metric|
      invariant samples == ScalarSamples(f.metric[..i], GAUGE, FamilyName(f), timestamp)
    {
      var m := f.metric[i];
      assert f.metric[..i + 1][..i] == f.metric[..i];
      if m.gauge.None? {
        continue;
      }
      var metric := CopyLabels(m.labels);
      metric := metric[MetricNameLabel := FamilyName(f)];
      samples := samples + [Sample(metric, m.gauge.value.value.GetOr(0.0), timestamp)];
    }
    WholePrefix(f.metric);
  }

  // extractSummary

  /** The labels of a quantile sample: the user labels, then the formatted
      quantile, then the family name. */
  function QuantileLabels(pairs: seq<LabelPair>, quantile: Bytes, name: Bytes): LabelSet {
    UserLabels(pairs)[QuantileLabel := quantile][MetricNameLabel := name]
  }

  /** One sample per quantile, in quantile order. */
  function QuantileSamples(pairs: seq<LabelPair>, qs: seq<Quantile>, name: Bytes, timestamp: int, sprint: FloatText): seq<Sample> {
    if qs == [] then []
    else
      var q := qs[|qs| - 1];
      QuantileSamples(pairs, qs[..|qs| - 1], name, timestamp, sprint)
        + [Sample(QuantileLabels(pairs, sprint(q.quantile.GetOr(0.0)), name), q.value.GetOr(0.0), timestamp)]
  }

  /** The samples of one metric with a summary: its quantiles, then `_sum` if set, then `_count` if set. */
  function SummaryOf(pairs: seq<LabelPair>, s: Summary, name: Bytes, timestamp: int, sprint: FloatText): seq<Sample> {
    QuantileSamples(pairs, s.quantile, name, timestamp, sprint)
      + (if s.sampleSum.Some? then [Sample(NamedLabels(pairs, name + SumSuffix), s.sampleSum.value, timestamp)] else [])
      + (if s.sampleCount.Some? then [Sample(NamedLabels(pairs, name + CountSuffix), s.sampleCount.value as real, timestamp)] else [])
  }

  /** The batch of a summary family: the samples of each metric with a summary, in metric order. */
  function SummarySamples(metrics: seq<Metric>, name: Bytes, timestamp: int, sprint: FloatText): seq<Sample> {
    if metrics == [] then []
    else
      var m := metrics[|metrics| - 1];
      SummarySamples(metrics[..|metrics| - 1], name, timestamp, sprint)
        + if m.summary.Some? then SummaryOf(m.labels, m.summary.value, name, timestamp, sprint) else []
  }

  /** Quantile sample j is quantile j's value, labelled with its formatted
      quantile and the family name, over the user labels. */
  lemma {:induction false} QuantileSamplesMeaning(pairs: seq<LabelPair>, qs: seq<Quantile>, name: Bytes, timestamp: int, sprint: FloatText)
    ensures |QuantileSamples(pairs, qs, name, timestamp, sprint)| == |qs|
    ensures forall j | 0 <= j < |qs| ::
      var s := QuantileSamples(pairs, qs, name, timestamp, sprint)[j];
      s.value == qs[j].value.GetOr(0.0) && s.timestamp == timestamp &&
      s.metric == QuantileLabels(pairs, sprint(qs[j].quantile.GetOr(0.0)), name)
  {
    if qs != [] {
      var init := qs[..|qs| - 1];
      QuantileSamplesMeaning(pairs, init, name, timestamp, sprint);
      var all := QuantileSamples(pairs, qs, name, timestamp, sprint);
      var before := QuantileSamples(pairs, init, name, timestamp, sprint);
      var q := qs[|qs| - 1];
      assert all == before + [Sample(QuantileLabels(pairs, sprint(q.quantile.GetOr(0.0)), name), q.value.GetOr(0.0), timestamp)];
      forall j | 0 <= j < |qs|
        ensures all[j].value == qs[j].value.GetOr(0.0) && all[j].timestamp == timestamp
        ensures all[j].metric == QuantileLabels(pairs, sprint(qs[j].quantile.GetOr(0.0)), name)
      {
        if j < |init| {
          assert all[j] == before[j] && init[j] == qs[j];
        }
      }
    }
  }

  /** A quantile sample keeps its formatted quantile under "quantile", whatever the user labels say. */
  lemma QuantileLabelWins(pairs: seq<LabelPair>, qs: seq<Quantile>, name: Bytes, timestamp: int, sprint: FloatText, j: nat)
    requires j < |qs|
    ensures j < |QuantileSamples(pairs, qs, name, timestamp, sprint)|
    ensures var s := QuantileSamples(pairs, qs, name, timestamp, sprint)[j];
      QuantileLabel in s.metric && s.metric[QuantileLabel] == sprint(qs[j].quantile.GetOr(0.0)) &&
      MetricNameLabel in s.metric && s.metric[MetricNameLabel] == name
  {
    QuantileSamplesMeaning(pairs, qs, name, timestamp, sprint);
    DistinctLabelNames();
  }

  /** Layout of one summary's samples: the quantiles first, then `_sum` and `_count` when set. */
  lemma SummaryOfLayout(pairs: seq<LabelPair>, s: Summary, name: Bytes, timestamp: int, sprint: FloatText)
    ensures var r := SummaryOf(pairs, s, name, timestamp, sprint);
      var n := |s.quantile|;
      |r| == n + (if s.sampleSum.Some? then 1 else 0) + (if s.sampleCount.Some? then 1 else 0) &&
      r[..n] == QuantileSamples(pairs, s.quantile, name, timestamp, sprint) &&
      (s.sampleSum.Some? ==>
        r[n] == Sample(NamedLabels(pairs, name + SumSuffix), s.sampleSum.value, timestamp)) &&
      (s.sampleCount.Some? ==>
        r[|r| - 1] == Sample(NamedLabels(pairs, name + CountSuffix), s.sampleCount.value as real, timestamp))
  {
    QuantileSamplesMeaning(pairs, s.quantile, name, timestamp, sprint);
  }

  /** Batches compose: the summary samples of a + b are those of a, then those of b. */
  lemma {:induction false} SummarySamplesAppend(a: seq<Metric>, b: seq<Metric>, name: Bytes, timestamp: int, sprint: FloatText)
    ensures SummarySamples(a + b, name, timestamp, sprint)
         == SummarySamples(a, name, timestamp, sprint) + SummarySamples(b, name, timestamp, sprint)
    decreases |b|
  {
    if b == [] {
      assert a + b == a;
    } else {
      var init := b[..|b| - 1];
      assert (a + b)[..|a + b| - 1] == a + init;
      assert (a + b)[|a + b| - 1] == b[|b| - 1];
      SummarySamplesAppend(a, init, name, timestamp, sprint);
      ConcatAssociative(SummarySamples(a, name, timestamp, sprint), SummarySamples(init, name, timestamp, sprint),
                        SummarySamples([b[|b| - 1]], name, timestamp, sprint));
    }
  }

  /** extractSummary: the batch of a summary family. */
  method ExtractSummary(f: MetricFamily, timestamp: int, sprint: FloatText) returns (samples: seq<Sample>)
    ensures samples == SummarySamples(f.metric, FamilyName(f), timestamp, sprint)
  {
    var name := FamilyName(f);
    samples := [];
    for i := 0 to |f.metric|
      invariant samples == SummarySamples(f.metric[..i], name, timestamp, sprint)
    {
      var m := f.metric[i];
      assert f.metric[..i + 1][..i] == f.metric[..i];
      if m.summary.None? {
        continue;
      }
      var more := ExtractSummaryMetric(m.labels, m.summary.value, name, timestamp, sprint);
      samples := samples + more;
    }
    WholePrefix(f.metric);
  }

  /** The body of extractSummary's loop for one metric with a summary. */
  method ExtractSummaryMetric(pairs: seq<LabelPair>, s: Summary, name: Bytes, timestamp: int, sprint: FloatText)
    returns (samples: seq<Sample>)
    ensures samples == SummaryOf(pairs, s, name, timestamp, sprint)
  {
    samples := ExtractQuantiles(pairs, s.quantile, name, timestamp, sprint);
    if s.sampleSum.Some? {
      var metric := CopyLabels(pairs);
      metric := metric[MetricNameLabel := name + SumSuffix];
      samples := samples + [Sample(metric, s.sampleSum.value, timestamp)];
    }
    if s.sampleCount.Some? {
      var metric := CopyLabels(pairs);
      metric := metric[MetricNameLabel := name + CountSuffix];
      samples := samples + [Sample(metric, s.sampleCount.value as real, timestamp)];
    }
  }

  /** The quantile loop of extractSummary. */
  method ExtractQuantiles(pairs: seq<LabelPair>, qs: seq<Quantile>, name: Bytes, timestamp: int, sprint: FloatText)
    returns (samples: seq<Sample>)
    ensures samples == QuantileSamples(pairs, qs, name, timestamp, sprint)
  {
    samples := [];
    for j := 0 to |qs|
      invariant samples == QuantileSamples(pairs, qs[..j], name, timestamp, sprint)
    {
      var q := qs[j];
      assert qs[..j + 1][..j] == qs[..j];
      var metric := CopyLabels(pairs);
      metric := metric[QuantileLabel := sprint(q.quantile.GetOr(0.0))];
      metric := metric[MetricNameLabel := name];
      samples := samples + [Sample(metric, q.value.GetOr(0.0), timestamp)];
    }
    WholePrefix(qs);
  }

  // ProcessSingle

  /** The batch a family is routed to, or None for a type no extractor handles. */
  function Batch(f: MetricFamily, timestamp: int, sprint: FloatText): Option<seq<Sample>>
    requires f.metricType.Some?
  {
    match f.metricType.value
    case COUNTER => Some(ScalarSamples(f.metric, COUNTER, FamilyName(f), timestamp))
    case GAUGE => Some(ScalarSamples(f.metric, GAUGE, FamilyName(f), timestamp))
    case SUMMARY => Some(SummarySamples(f.metric, FamilyName(f), timestamp, sprint))
    case UNTYPED => None
  }

  /** The batches of a stream of families, in stream order, skipping families no extractor handles. */
  function Batches(families: seq<MetricFamily>, timestamp: int, sprint: FloatText): seq<seq<Sample>>
    requires forall i | 0 <= i < |families| :: families[i].metricType.Some?
  {
    if families == [] then []
    else
      var f := families[|families| - 1];
      Batches(families[..|families| - 1], timestamp, sprint)
        + match Batch(f, timestamp, sprint)
          case Some(b) => [b]
          case None => []
  }

  /** The stream composes: the batches of a + b are those of a, then those of b. */
  lemma {:induction false} BatchesAppend(a: seq<MetricFamily>, b: seq<MetricFamily>, timestamp: int, sprint: FloatText)
    requires forall i | 0 <= i < |a| :: a[i].metricType.Some?
    requires forall i | 0 <= i < |b| :: b[i].metricType.Some?
    ensures forall i | 0 <= i < |a + b| :: (a + b)[i].metricType.Some?
    ensures Batches(a + b, timestamp, sprint) == Batches(a, timestamp, sprint) + Batches(b, timestamp, sprint)
    decreases |b|
  {
    if b == [] {
      assert a + b == a;
    } else {
      var init := b[..|b| - 1];
      assert (a + b)[..|a + b| - 1] == a + init;
      assert (a + b)[|a + b| - 1] == b[|b| - 1];
      BatchesAppend(a, init, timestamp, sprint);
      ConcatAssociative(Batches(a, timestamp, sprint), Batches(init, timestamp, sprint),
                        Batches([b[|b| - 1]], timestamp, sprint));
    }
  }

  /** Untyped families contribute nothing: dropping them leaves the batches unchanged. */
  lemma {:induction false} UntypedSkipped(a: seq<MetricFamily>, f: MetricFamily, timestamp: int, sprint: FloatText)
    requires forall i | 0 <= i < |a| :: a[i].metricType.Some?
    requires f.metricType == Some(UNTYPED)
    ensures Batches(a + [f], timestamp, sprint) == Batches(a, timestamp, sprint)
  {
    assert (a + [f])[..|a|] == a;
  }

  /**
   * ProcessSingle over an already decoded stream: each routed batch is
   * handed to the ingester in order, and the first rejection ends the
   * stream with an error. `accepts` stands for the ingester's answer.
   * Go dereferences every family's type, so each must carry one.
   */
  method ProcessSingle(families: seq<MetricFamily>, timestamp: int, sprint: FloatText, accepts: seq<Sample> -> bool)
    returns (ingested: seq<seq<Sample>>, failed: bool)
    requires forall i | 0 <= i < |families| :: families[i].metricType.Some?
    ensures |ingested| <= |Batches(families, timestamp, sprint)|
    ensures ingested == Batches(families, timestamp, sprint)[..|ingested|]
    ensures forall i | 0 <= i < |ingested| - 1 :: accepts(ingested[i])
    ensures failed <==> ingested != [] && !accepts(ingested[|ingested| - 1])
    ensures !failed ==> ingested == Batches(families, timestamp, sprint)
  {
    ingested := [];
    failed := false;
    for i := 0 to |families|
      invariant ingested == Batches(families[..i], timestamp, sprint)
      invariant forall k | 0 <= k < |ingested| :: accepts(ingested[k])
    {
      BatchesStep(families, i, timestamp, sprint);
      var routed := Route(families[i], timestamp, sprint);
      if routed.Some? {
        ingested := ingested + [routed.value];
        if !accepts(routed.value) {
          failed := true;
          BatchesPrefix(families, i + 1, timestamp, sprint);
          return;
        }
      }
    }
    WholePrefix(families);
  }

  /** The switch on the family's type: runs the matching extractor, or
      yields None for a type no extractor handles. */
  method Route(f: MetricFamily, timestamp: int, sprint: FloatText) returns (batch: Option<seq<Sample>>)
    requires f.metricType.Some?
    ensures batch == Batch(f, timestamp, sprint)
  {
    match f.metricType.value {
      case COUNTER =>
        var b := ExtractCounter(f, timestamp);
        batch := Some(b);
      case GAUGE =>
        var b := ExtractGauge(f, timestamp);
        batch := Some(b);
      case SUMMARY =>
        var b := ExtractSummary(f, timestamp, sprint);
        batch := Some(b);
      case UNTYPED =>
        batch := None;
    }
  }

  /** Extending a prefix of the stream by one family adds that family's batch, if any. */
  lemma {:induction false} BatchesStep(families: seq<MetricFamily>, i: nat, timestamp: int, sprint: FloatText)
    requires i < |families|
    requires forall k | 0 <= k < |families| :: families[k].metricType.Some?
    ensures Batches(families[..i + 1], timestamp, sprint)
         == Batches(families[..i], timestamp, sprint)
              + match Batch(families[i], timestamp, sprint)
                case Some(b) => [b]
                case None => []
  {
    assert families[..i + 1][..i] == families[..i];
    assert families[..i + 1][i] == families[i];
  }

  /** The batches of a prefix of the stream are a prefix of the stream's batches. */
  lemma {:induction false} BatchesPrefix(families: seq<MetricFamily>, n: nat, timestamp: int, sprint: FloatText)
    requires n <= |families|
    requires forall i | 0 <= i < |families| :: families[i].metricType.Some?
    ensures |Batches(families[..n], timestamp, sprint)| <= |Batches(families, timestamp, sprint)|
    ensures Batches(families[..n], timestamp, sprint)
         == Batches(families, timestamp, sprint)[..|Batches(families[..n], timestamp, sprint)|]
    decreases |families| - n
  {
    if n == |families| {
      WholePrefix(families);
    } else {
      BatchesPrefix(families, n + 1, timestamp, sprint);
      assert families[..n + 1][..n] == families[..n];
    }
  }
}
