/**
 The rule-based anomaly detector: each metric sample is compared with a fixed
 per-metric baseline, and three metric names have a threshold rule that decides
 whether the sample is anomalous, how severe it is, and how confident the
 detector is. Metric values are real numbers; the rendering of numbers inside
 explanations is left to a formatter passed in by the caller.
 */
module Detector {
  import opened Text

  /** One metric sample. Its timestamp and labels are never read by the detector and are not modelled. */
  datatype MetricData = MetricData(service: string, metricName: string, value: real)

  /** The verdict on one metric sample. */
  datatype AnomalyResult = AnomalyResult(
    detected: bool,
    confidence: real,
    severity: string,
    metric: string,
    service: string,
    explanation: string,
    recommendedActions: seq<string>,
    impactEstimate: string)

  /** The number formats the explanations use: `:.Nf` and `:.N%`. */
  datatype NumberFormat = Fixed(places: nat) | Percent(places: nat)

  /** Renders a number in a format; floating-point text formatting is outside the model. */
  type Formatter = (real, NumberFormat) -> string

  /** The metric names the detector knows. */
  const ErrorRateMetric: string := "error_rate"
  const ResponseTimeMetric: string := "response_time"
  const CpuUsageMetric: string := "cpu_usage"
  const MemoryUsageMetric: string := "memory_usage"
  const RequestRateMetric: string := "request_rate"

  /** The severity names the detector assigns. */
  const Critical: string := "critical"
  const High: string := "high"
  const Medium: string := "medium"
  const NoSeverity: string := "none"

  /** The metric names differ pairwise in length or in their first letter. */
  lemma MetricNamesDistinct()
    ensures ErrorRateMetric != ResponseTimeMetric && ErrorRateMetric != CpuUsageMetric
    ensures ErrorRateMetric != MemoryUsageMetric && ErrorRateMetric != RequestRateMetric
    ensures ResponseTimeMetric != CpuUsageMetric && ResponseTimeMetric != MemoryUsageMetric
    ensures ResponseTimeMetric != RequestRateMetric && CpuUsageMetric != MemoryUsageMetric
    ensures CpuUsageMetric != RequestRateMetric && MemoryUsageMetric != RequestRateMetric
  {
    assert ErrorRateMetric[0] == 'e' && ResponseTimeMetric[0] == 'r' && CpuUsageMetric[0] == 'c';
    assert MemoryUsageMetric[0] == 'm' && RequestRateMetric[0] == 'r';
    assert |ResponseTimeMetric| == 13 && |RequestRateMetric| == 12;
  }

  /** The severity names differ pairwise in length or in their first letter. */
  lemma SeverityNamesDistinct()
    ensures Critical != High && Critical != Medium && Critical != NoSeverity
    ensures High != Medium && High != NoSeverity && Medium != NoSeverity
  {
    assert |Critical| == 8 && |High| == 4 && |Medium| == 6 && |NoSeverity| == 4;
    assert High[0] == 'h' && NoSeverity[0] == 'n';
  }

  /** The baseline table the detector is constructed with; it never changes afterwards. */
  const BaselineMetrics: map<string, real> := map[
    ErrorRateMetric := 0.02,
    ResponseTimeMetric := 0.5,
    CpuUsageMetric := 0.3,
    MemoryUsageMetric := 0.4,
    RequestRateMetric := 100.0]

  /** `baseline_metrics.get(name, 0)` */
  function Baseline(name: string): (b: real)
    ensures b >= 0.0
    ensures b > 0.0 <==> name in BaselineMetrics
  {
    if name in BaselineMetrics then BaselineMetrics[name] else 0.0
  }

  /** The baselines of the three metrics that have a rule. */
  lemma RuleBaselines()
    ensures Baseline(ErrorRateMetric) == 0.02
    ensures Baseline(ResponseTimeMetric) == 0.5
    ensures Baseline(CpuUsageMetric) == 0.3
  {
    MetricNamesDistinct();
  }

  /** Python's `min(a, b)`: the first argument unless the second is smaller. */
  function Min(a: real, b: real): (m: real)
    ensures m <= a && m <= b && (m == a || m == b)
  {
    if b < a then b else a
  }

  /** Python's `int(x)` on a float: truncation toward zero. */
  function TruncateToInt(x: real): (n: int)
    ensures 0.0 <= x ==> 0 <= n && n as real <= x < n as real + 1.0
    ensures x < 0.0 ==> n <= 0 && n as real - 1.0 < x <= n as real
  {
    if x >= 0.0 then x.Floor else -((-x).Floor)
  }

  /** The relative deviation (v - b) / b exceeds k whenever v exceeds (k + 1) times b. */
  lemma RatioAbove(v: real, b: real, k: real)
    requires b > 0.0
    ensures v > (k + 1.0) * b ==> (v - b) / b > k
  {
    var q := (v - b) / b;
    assert q * b == v - b;
  }

  /**
   `min(cap, (value - baseline) / baseline)`: the relative deviation from the
   baseline, capped. It is the cap itself once the value is more than
   (cap + 1) times the baseline.
   */
  function CappedDeviation(cap: real, value: real, baseline: real): (c: real)
    requires baseline > 0.0
    ensures c <= cap
    ensures value > (cap + 1.0) * baseline ==> c == cap
  {
    RatioAbove(value, baseline, cap);
    Min(cap, (value - baseline) / baseline)
  }

  const ErrorRateActions: seq<string> := [
    "Investigate recent deployments or configuration changes",
    "Check application logs for specific error patterns",
    "Verify external dependencies are functioning properly",
    "Consider rolling back to previous version if issues persist"]

  const ResponseTimeActions: seq<string> := [
    "Scale up application pods to handle increased load",
    "Check database query performance and connection pools",
    "Analyze CPU and memory usage patterns",
    "Review recent code changes for performance regressions"]

  const CpuUsageActions: seq<string> := [
    "Immediately check for unusual processes or security breaches",
    "Scale horizontal pod autoscaler limits if legitimate load",
    "Investigate potential memory leaks or infinite loops",
    "Review resource requests and limits configuration"]

  /** Every rule recommends four remediation steps. */
  lemma FourActionsEach()
    ensures |ErrorRateActions| == 4 && |ResponseTimeActions| == 4 && |CpuUsageActions| == 4
  {
  }

  const ErrorRateNote: string := "). This indicates potential issues with service reliability."
  const ResponseTimeNote: string := "s). Users may experience slow application performance."
  const CpuUsageNote: string :=
    "). This may indicate resource exhaustion or potential security issues like crypto-mining."

  const ErrorRateLead: string := "Error rate "
  const ResponseTimeLead: string := "Response time "
  const CpuUsageLead: string := "CPU usage "
  const TimesWord: string := " is "
  const SecondsTimesWord: string := "s is "
  const AboveBaseline: string := "x higher than baseline ("
  const CriticallyHigh: string := " is critically high (baseline: "

  /**
   The explanation of a fired error-rate rule; numbers are rendered by `format`.
   It opens with the value and closes with the note on reliability.
   */
  function ErrorRateExplanation(value: real, baseline: real, format: Formatter): (r: string)
    requires baseline > 0.0
    ensures ErrorRateLead + format(value, Fixed(3)) <= r
    ensures EndsWith(r, ErrorRateNote)
  {
    var lead := ErrorRateLead + format(value, Fixed(3));
    var middle := TimesWord + format(value / baseline, Fixed(1)) + AboveBaseline + format(baseline, Fixed(3));
    Framed(lead, middle, ErrorRateNote);
    lead + middle + ErrorRateNote
  }

  /** The explanation of a fired response-time rule: the value first, the note on user experience last. */
  function ResponseTimeExplanation(value: real, baseline: real, format: Formatter): (r: string)
    requires baseline > 0.0
    ensures ResponseTimeLead + format(value, Fixed(3)) <= r
    ensures EndsWith(r, ResponseTimeNote)
  {
    var lead := ResponseTimeLead + format(value, Fixed(3));
    var middle := SecondsTimesWord + format(value / baseline, Fixed(1)) + AboveBaseline + format(baseline, Fixed(3));
    Framed(lead, middle, ResponseTimeNote);
    lead + middle + ResponseTimeNote
  }

  /** The explanation of a fired CPU-usage rule: the value as a percentage first, the note on exhaustion last. */
  function CpuUsageExplanation(value: real, baseline: real, format: Formatter): (r: string)
    ensures CpuUsageLead + format(value, Percent(1)) <= r
    ensures EndsWith(r, CpuUsageNote)
  {
    var lead := CpuUsageLead + format(value, Percent(1));
    var middle := CriticallyHigh + format(baseline, Percent(1));
    Framed(lead, middle, CpuUsageNote);
    lead + middle + CpuUsageNote
  }

  const NoImpact: string := "None"
  const NormalErrorRate: string := "Normal error rate"
  const NormalResponseTime: string := "Normal response time"
  const NormalCpuUsage: string := "Normal CPU usage"
  const NoAnomalyDetected: string := "No anomaly detected"

  /** The result for a sample that is not anomalous, with the analyser's own explanation. */
  function Normal(metric: MetricData, explanation: string): (r: AnomalyResult)
    ensures !r.detected && r.confidence == 0.0 && r.severity == NoSeverity
    ensures r.recommendedActions == [] && r.impactEstimate == NoImpact
    ensures r.metric == metric.metricName && r.service == metric.service && r.explanation == explanation
  {
    AnomalyResult(false, 0.0, NoSeverity, metric.metricName, metric.service, explanation, [], NoImpact)
  }

  const MediumBusinessImpact: string := "Medium business impact"
  const SatisfactionDecrease: string := "20% user satisfaction decrease"
  const MinorUserImpact: string := "Minor user experience impact"
  const DegradationImminent: string := "Service degradation imminent"
  const DegradationLikely: string := "Performance degradation likely"

  const Dollar: string := "$"
  const RevenueSuffix: string := "/hour in lost revenue"

  /**
   The revenue estimate of a critical error rate: `int(value * 1000)` dollars per
   hour. For a non-negative value the amount's digits read back as that integer.
   */
  function LostRevenue(value: real): (r: string)
    ensures Dollar <= r && EndsWith(r, RevenueSuffix) && |Dollar| + |RevenueSuffix| < |r|
    ensures value >= 0.0 ==>
      var amount := r[|Dollar|..|r| - |RevenueSuffix|];
      AllDigits(amount) && ParseDecimal(amount) == TruncateToInt(value * 1000.0)
  {
    var n := TruncateToInt(value * 1000.0);
    var amount := IntToDecimal(n);
    Framed(Dollar, amount, RevenueSuffix);
    AmountReadsBack(n);
    Dollar + amount + RevenueSuffix
  }

  /** The rendering of a non-negative integer reads back as that integer. */
  lemma AmountReadsBack(n: int)
    ensures n >= 0 ==> AllDigits(IntToDecimal(n)) && ParseDecimal(IntToDecimal(n)) == n
  {
    if n >= 0 {
      DecimalRoundTrip(n);
    }
  }

  /** Error rate: anomalous above three times the baseline, critical above five times. */
  function AnalyzeErrorRate(metric: MetricData, baseline: real, format: Formatter): (r: AnomalyResult)
    requires baseline > 0.0
    ensures r.metric == metric.metricName && r.service == metric.service
    ensures r.detected <==> metric.value > 3.0 * baseline
    ensures r.detected ==> r.confidence == 0.95 && r.recommendedActions == ErrorRateActions
    ensures r.detected ==> (r.severity == Critical <==> metric.value > 5.0 * baseline)
    ensures r.detected ==> (r.severity == High <==> metric.value <= 5.0 * baseline)
    ensures r.detected ==> r.explanation == ErrorRateExplanation(metric.value, baseline, format)
    ensures r.detected ==> r.impactEstimate == (if r.severity == Critical then LostRevenue(metric.value) else MediumBusinessImpact)
    ensures !r.detected ==> r == Normal(metric, NormalErrorRate)
  {
    var threshold := baseline * 3.0;
    if metric.value > threshold then
      var confidence := CappedDeviation(0.95, metric.value, baseline);
      var severity := if metric.value > baseline * 5.0 then Critical else High;
      SeverityNamesDistinct();
      AnomalyResult(
        true, confidence, severity, metric.metricName, metric.service,
        ErrorRateExplanation(metric.value, baseline, format),
        ErrorRateActions,
        if severity == Critical then LostRevenue(metric.value) else MediumBusinessImpact)
    else
      Normal(metric, NormalErrorRate)
  }

  /** Response time: anomalous above twice the baseline, high above four times, medium otherwise. */
  function AnalyzeResponseTime(metric: MetricData, baseline: real, format: Formatter): (r: AnomalyResult)
    requires baseline > 0.0
    ensures r.metric == metric.metricName && r.service == metric.service
    ensures r.detected <==> metric.value > 2.0 * baseline
    ensures r.detected ==> r.confidence == 0.9 && r.recommendedActions == ResponseTimeActions
    ensures r.detected ==> (r.severity == High <==> metric.value > 4.0 * baseline)
    ensures r.detected ==> (r.severity == Medium <==> metric.value <= 4.0 * baseline)
    ensures r.detected ==> r.explanation == ResponseTimeExplanation(metric.value, baseline, format)
    ensures r.detected ==> r.impactEstimate == (if r.severity == High then SatisfactionDecrease else MinorUserImpact)
    ensures !r.detected ==> r == Normal(metric, NormalResponseTime)
  {
    var threshold := baseline * 2.0;
    if metric.value > threshold then
      var confidence := CappedDeviation(0.9, metric.value, baseline);
      var severity := if metric.value > baseline * 4.0 then High else Medium;
      SeverityNamesDistinct();
      AnomalyResult(
        true, confidence, severity, metric.metricName, metric.service,
        ResponseTimeExplanation(metric.value, baseline, format),
        ResponseTimeActions,
        if severity == High then SatisfactionDecrease else MinorUserImpact)
    else
      Normal(metric, NormalResponseTime)
  }

  /**
   CPU usage: anomalous above the absolute level 0.8 whatever the baseline,
   critical above 0.9. The confidence is capped at 0.85; it reaches the cap
   for every anomalous sample as long as the baseline is at most 0.4.
   */
  function AnalyzeCpuUsage(metric: MetricData, baseline: real, format: Formatter): (r: AnomalyResult)
    requires baseline > 0.0
    ensures r.metric == metric.metricName && r.service == metric.service
    ensures r.detected <==> metric.value > 0.8
    ensures r.detected ==> r.confidence <= 0.85 && r.recommendedActions == CpuUsageActions
    ensures r.detected && baseline <= 0.4 ==> r.confidence == 0.85
    ensures r.detected ==> (r.severity == Critical <==> metric.value > 0.9)
    ensures r.detected ==> (r.severity == High <==> metric.value <= 0.9)
    ensures r.detected ==> r.explanation == CpuUsageExplanation(metric.value, baseline, format)
    ensures r.detected ==> r.impactEstimate == (if r.severity == Critical then DegradationImminent else DegradationLikely)
    ensures !r.detected ==> r == Normal(metric, NormalCpuUsage)
  {
    if metric.value > 0.8 then
      var confidence := CappedDeviation(0.85, metric.value, baseline);
      var severity := if metric.value > 0.9 then Critical else High;
      SeverityNamesDistinct();
      AnomalyResult(
        true, confidence, severity, metric.metricName, metric.service,
        CpuUsageExplanation(metric.value, baseline, format),
        CpuUsageActions,
        if severity == Critical then DegradationImminent else DegradationLikely)
    else
      Normal(metric, NormalCpuUsage)
  }

  /** The anomaly condition restated with the table's numbers multiplied out. */
  predicate Flagged(m: MetricData) {
    || (m.metricName == ErrorRateMetric && m.value > 0.06)
    || (m.metricName == ResponseTimeMetric && m.value > 1.0)
    || (m.metricName == CpuUsageMetric && m.value > 0.8)
  }

  /** The cap on the confidence of a detected result, per metric name. */
  function ConfidenceCap(name: string): real {
    if name == ErrorRateMetric then 0.95
    else if name == ResponseTimeMetric then 0.9
    else if name == CpuUsageMetric then 0.85
    else 0.0
  }

  /** Dispatch on the metric name; names without a rule are never anomalous. */
  function AnalyzeMetric(metric: MetricData, format: Formatter): (r: AnomalyResult)
    ensures r.metric == metric.metricName && r.service == metric.service
    ensures r.detected <==> Flagged(metric)
    ensures 0.0 <= r.confidence <= 0.95
    ensures r.detected ==> r.confidence == ConfidenceCap(metric.metricName)
    ensures r.detected ==> |r.recommendedActions| == 4 && r.severity != NoSeverity
    ensures r.detected && metric.metricName == ErrorRateMetric ==>
      (r.severity == Critical <==> metric.value > 0.1) && (r.severity == High <==> metric.value <= 0.1)
    ensures r.detected && metric.metricName == ResponseTimeMetric ==>
      (r.severity == High <==> metric.value > 2.0) && (r.severity == Medium <==> metric.value <= 2.0)
    ensures r.detected && metric.metricName == CpuUsageMetric ==>
      (r.severity == Critical <==> metric.value > 0.9) && (r.severity == High <==> metric.value <= 0.9)
    ensures !r.detected ==>
      r.confidence == 0.0 && r.severity == NoSeverity && r.recommendedActions == [] && r.impactEstimate == NoImpact
    ensures (metric.metricName != ErrorRateMetric && metric.metricName != ResponseTimeMetric
             && metric.metricName != CpuUsageMetric) ==> r == Normal(metric, NoAnomalyDetected)
  {
    var baseline := Baseline(metric.metricName);
    RuleBaselines();
    FourActionsEach();
    SeverityNamesDistinct();
    if metric.metricName == ErrorRateMetric then AnalyzeErrorRate(metric, baseline, format)
    else if metric.metricName == ResponseTimeMetric then AnalyzeResponseTime(metric, baseline, format)
    else if metric.metricName == CpuUsageMetric then AnalyzeCpuUsage(metric, baseline, format)
    else Normal(metric, NoAnomalyDetected)
  }

  /** The detected results for a list of samples, in the order of the samples. */
  function Anomalies(metrics: seq<MetricData>, format: Formatter): (r: seq<AnomalyResult>)
    ensures |r| <= |metrics|
    ensures forall i :: 0 <= i < |r| ==> r[i].detected
    decreases |metrics|
  {
    if metrics == [] then []
    else
      var rest := Anomalies(metrics[..|metrics| - 1], format);
      var last := AnalyzeMetric(metrics[|metrics| - 1], format);
      if last.detected then rest + [last] else rest
  }

  /** Extending the samples by one adds that sample's result when it is detected. */
  lemma AnomaliesStep(metrics: seq<MetricData>, k: nat, format: Formatter)
    requires k < |metrics|
    ensures Anomalies(metrics[..k + 1], format) ==
      var a := AnalyzeMetric(metrics[k], format);
      if a.detected then Anomalies(metrics[..k], format) + [a] else Anomalies(metrics[..k], format)
  {
    assert metrics[..k + 1][..k] == metrics[..k];
  }

  /** The samples that meet their metric's threshold, in input order. */
  function FlaggedMetrics(metrics: seq<MetricData>): seq<MetricData>
    decreases |metrics|
  {
    if metrics == [] then []
    else
      var rest := FlaggedMetrics(metrics[..|metrics| - 1]);
      if Flagged(metrics[|metrics| - 1]) then rest + [metrics[|metrics| - 1]] else rest
  }

  /**
   The detected results are exactly the analyses of the flagged samples, one per
   flagged sample and in input order.
   */
  lemma {:induction false} AnomaliesAreFlaggedSamples(metrics: seq<MetricData>, format: Formatter)
    ensures |Anomalies(metrics, format)| == |FlaggedMetrics(metrics)|
    ensures forall i :: 0 <= i < |FlaggedMetrics(metrics)| ==>
      Anomalies(metrics, format)[i] == AnalyzeMetric(FlaggedMetrics(metrics)[i], format)
    decreases |metrics|
  {
    if metrics != [] {
      AnomaliesAreFlaggedSamples(metrics[..|metrics| - 1], format);
    }
  }

  /** The flagged samples are exactly the input samples that meet their threshold. */
  lemma {:induction false} FlaggedMetricsMembers(metrics: seq<MetricData>)
    ensures forall m :: m in FlaggedMetrics(metrics) <==> m in metrics && Flagged(m)
    decreases |metrics|
  {
    if metrics != [] {
      var init := metrics[..|metrics| - 1];
      FlaggedMetricsMembers(init);
      assert metrics == init + [metrics[|metrics| - 1]];
    }
  }

  /** `detect_anomalies`: analyse every sample and keep the detected results. */
  method DetectAnomalies(metrics: seq<MetricData>, format: Formatter) returns (anomalies: seq<AnomalyResult>)
    ensures anomalies == Anomalies(metrics, format)
    ensures |anomalies| <= |metrics|
    ensures forall i :: 0 <= i < |anomalies| ==> anomalies[i].detected
  {
    anomalies := [];
    var k := 0;
    while k < |metrics|
      invariant 0 <= k <= |metrics|
      invariant anomalies == Anomalies(metrics[..k], format)
    {
      var anomaly := AnalyzeMetric(metrics[k], format);
      if anomaly.detected {
        anomalies := anomalies + [anomaly];
      }
      AnomaliesStep(metrics, k, format);
      k := k + 1;
    }
    assert metrics[..k] == metrics;
  }
}
