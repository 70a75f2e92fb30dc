/**
 The incident reporter: it orders the detected anomalies by severity and renders
 them as a Markdown-like text report, one block per anomaly, with a header that
 counts them and a correlation note when there is more than one.
 */
module Reporter {
  import opened Text
  import opened Detector
  import opened Sorting

  /** The one severity the ordering knows that the detector never assigns. */
  const Low: string := "low"

  /** The rank table of the report's ordering: lower ranks are reported first. */
  const SeverityOrder: map<string, nat> := map[Critical := 0, High := 1, Medium := 2, Low := 3]

  /** `severity_order.get(severity, 4)`: unknown severities, "none" among them, go last. */
  function SeverityRank(severity: string): (k: nat)
    ensures k <= 4
  {
    if severity in SeverityOrder then SeverityOrder[severity] else 4
  }

  /** The ranks of the four named severities, and of "none". */
  lemma SeverityRanks()
    ensures SeverityRank(Critical) == 0 && SeverityRank(High) == 1
    ensures SeverityRank(Medium) == 2 && SeverityRank(Low) == 3
    ensures SeverityRank(NoSeverity) == 4
  {
    SeverityNamesDistinct();
    assert |Low| == 3 && |Critical| == 8 && |High| == 4 && |Medium| == 6;
    assert Low[0] == 'l' && NoSeverity[0] == 'n';
  }

  /** The sort key of an anomaly. */
  function Rank(a: AnomalyResult): nat {
    SeverityRank(a.severity)
  }

  function ActionCount(a: AnomalyResult): nat {
    |a.recommendedActions|
  }

  /** The number of recommended actions over all anomalies. */
  function TotalActions(s: seq<AnomalyResult>): nat {
    SumBy(s, ActionCount)
  }

  /** `sorted(anomalies, key=lambda x: severity_order.get(x.severity, 4))`. */
  function SortBySeverity(s: seq<AnomalyResult>): seq<AnomalyResult> {
    SortByKey(s, Rank)
  }

  /**
   The report's order: a permutation of the anomalies, ranks never decreasing,
   the same anomalies at every rank in input order, hence the critical ones in
   input order, then the high ones, the medium, the low and finally all others.
   */
  lemma SortBySeverityOrder(s: seq<AnomalyResult>)
    ensures |SortBySeverity(s)| == |s| && multiset(SortBySeverity(s)) == multiset(s)
    ensures SortedBy(SortBySeverity(s), Rank)
    ensures forall k :: Bucket(SortBySeverity(s), Rank, k) == Bucket(s, Rank, k)
    ensures SortBySeverity(s) == Grouped(s, Rank, 0, 4)
    ensures TotalActions(SortBySeverity(s)) == TotalActions(s)
  {
    SortPermutes(s, Rank);
    SortSorted(s, Rank);
    forall k ensures Bucket(SortBySeverity(s), Rank, k) == Bucket(s, Rank, k) {
      SortKeepsBuckets(s, Rank, k);
    }
    SortIsGrouping(s, Rank, 4);
    SortKeepsSum(s, Rank, ActionCount);
  }

  const AllClearMark: char := '\U{2705}'
  const AlarmMark: char := '\U{1F6A8}'
  const NoAnomaliesMessage: string := [AllClearMark] + " No anomalies detected. All systems operating normally."
  const ReportTitle: string := [AlarmMark] + " ANOMALY DETECTION REPORT"
  const GeneratedLabel: string := "Generated: "
  const UtcSuffix: string := "Z"
  const TotalLabel: string := "Total Anomalies: "
  const Blank: string := ""

  /** The five header lines; `generatedAt` is the ISO-8601 rendering of the UTC time of the call. */
  function Header(count: nat, generatedAt: string): (h: seq<string>)
    ensures |h| == 5 && h[0] == ReportTitle && h[3] == TotalLabel + NatToDecimal(count)
  {
    [ReportTitle, Repeat('=', 50), GeneratedLabel + generatedAt + UtcSuffix, TotalLabel + NatToDecimal(count), Blank]
  }

  const AnomalyHeading: string := "## Anomaly #"
  const HeadingSeparator: string := ": "
  const ServiceLabel: string := "**Service:** "
  const MetricLabel: string := "**Metric:** "
  const ConfidenceLabel: string := "**Confidence:** "
  const ImpactLabel: string := "**Impact:** "
  const AnalysisHeading: string := "**\U{1F916} AI Analysis:**"
  const ActionsHeading: string := "**\U{1F4CB} Recommended Actions:**"
  const Bullet: string := "- "

  /** The heading line of the anomaly numbered `number`: its number and its severity in capitals. */
  function AnomalyHeadingLine(number: nat, a: AnomalyResult): string {
    AnomalyHeading + NatToDecimal(number) + HeadingSeparator + AsciiUpper(a.severity)
  }

  /**
   The heading line opens with the heading label, its number reads back as the
   block's number, and it closes with the severity in capitals.
   */
  lemma HeadingLineReadsBack(number: nat, a: AnomalyResult)
    ensures var line := AnomalyHeadingLine(number, a);
      AnomalyHeading <= line && |AnomalyHeading| + |HeadingSeparator| + |a.severity| < |line|
    ensures var line := AnomalyHeadingLine(number, a);
      var digits := line[|AnomalyHeading|..|line| - |HeadingSeparator| - |a.severity|];
      AllDigits(digits) && ParseDecimal(digits) == number
    ensures EndsWith(AnomalyHeadingLine(number, a), HeadingSeparator + AsciiUpper(a.severity))
  {
    var digits := NatToDecimal(number);
    var tail := HeadingSeparator + AsciiUpper(a.severity);
    Framed(AnomalyHeading, digits, tail);
    DecimalRoundTrip(number);
    assert AnomalyHeading + digits + tail == AnomalyHeadingLine(number, a);
  }

  /** The ten lines of an anomaly block up to the action list. */
  function BlockHead(number: nat, a: AnomalyResult, format: Formatter): (h: seq<string>)
    ensures |h| == 10
  {
    [AnomalyHeadingLine(number, a),
     ServiceLabel + a.service,
     MetricLabel + a.metric,
     ConfidenceLabel + format(a.confidence, Percent(1)),
     ImpactLabel + a.impactEstimate,
     Blank,
     AnalysisHeading,
     a.explanation,
     Blank,
     ActionsHeading]
  }

  /** One bulleted line per recommended action, in order. */
  function ActionLines(actions: seq<string>): (r: seq<string>)
    ensures |r| == |actions|
    ensures forall i :: 0 <= i < |r| ==> r[i] == Bullet + actions[i]
  {
    seq(|actions|, i requires 0 <= i < |actions| => Bullet + actions[i])
  }

  /** The three lines closing an anomaly block. */
  function BlockTail(): (t: seq<string>)
    ensures |t| == 3
  {
    [Blank, Repeat('-', 40), Blank]
  }

  /** The block of the anomaly numbered `number`. */
  function AnomalyBlock(number: nat, a: AnomalyResult, format: Formatter): (b: seq<string>)
    ensures |b| == 13 + |a.recommendedActions|
  {
    BlockHead(number, a, format) + ActionLines(a.recommendedActions) + BlockTail()
  }

  /**
   An anomaly block opens with its heading line, lists the actions in order from
   its eleventh line on, and closes with the separator between two blank lines.
   */
  lemma BlockLines(number: nat, a: AnomalyResult, format: Formatter)
    ensures var b := AnomalyBlock(number, a, format);
      b[0] == AnomalyHeadingLine(number, a) &&
      (forall i :: 0 <= i < |a.recommendedActions| ==> b[10 + i] == Bullet + a.recommendedActions[i]) &&
      b[|b| - 3..] == [Blank, Repeat('-', 40), Blank]
  {
    var b := AnomalyBlock(number, a, format);
    assert b[|b| - 3..] == BlockTail();
  }

  /** A renderer of numbered anomaly blocks. */
  type Renderer = (nat, AnomalyResult) -> seq<string>

  /** The block layout of the report, with numbers rendered by `format`. */
  function BlockRenderer(format: Formatter): (render: Renderer)
    ensures forall number, a :: render(number, a) == AnomalyBlock(number, a, format)
  {
    (number: nat, a: AnomalyResult) => AnomalyBlock(number, a, format)
  }

  /** `for i, anomaly in enumerate(s, first)`: the blocks of s, numbered consecutively from `first`. */
  function Blocks(s: seq<AnomalyResult>, first: nat, render: Renderer): (r: seq<string>)
    ensures (forall number: nat, a :: render(number, a) != []) ==> (r == [] <==> s == [])
    decreases |s|
  {
    if s == [] then [] else render(first, s[0]) + Blocks(s[1..], first + 1, render)
  }

  const CorrelationHeading: string := "## \U{1F517} Correlation Analysis"
  const CorrelationNote: string := "Multiple anomalies detected simultaneously."
  const CorrelationAdvice: string := "This pattern suggests a systemic issue that may require coordinated response."

  /** The correlation note, present only when more than one anomaly is reported. */
  function Correlation(count: nat): (c: seq<string>)
    ensures |c| == (if count > 1 then 4 else 0)
  {
    if count > 1 then [CorrelationHeading, CorrelationNote, CorrelationAdvice, Blank] else []
  }

  /** The lines of the report for a non-empty list of anomalies. */
  function ReportLines(anomalies: seq<AnomalyResult>, generatedAt: string, format: Formatter): (lines: seq<string>)
    ensures |lines| == 5 + 13 * |anomalies| + TotalActions(anomalies) + (if |anomalies| > 1 then 4 else 0)
    ensures lines[0] == ReportTitle
  {
    RenderedBlockLength(format);
    BlocksLength(SortBySeverity(anomalies), 1, BlockRenderer(format));
    SortKeepsSum(anomalies, Rank, ActionCount);
    Header(|anomalies|, generatedAt) + Blocks(SortBySeverity(anomalies), 1, BlockRenderer(format)) + Correlation(|anomalies|)
  }

  const LineBreak: string := "\n"

  /** `generate_incident_report`: a fixed message when nothing was detected, the joined lines otherwise. */
  function IncidentReport(anomalies: seq<AnomalyResult>, generatedAt: string, format: Formatter): (report: string)
    ensures anomalies == [] <==> report == NoAnomaliesMessage
    ensures ReportTitle <= report <==> anomalies != []
  {
    assert ReportTitle[0] == AlarmMark && NoAnomaliesMessage[0] == AllClearMark;
    if anomalies == [] then NoAnomaliesMessage else Join(ReportLines(anomalies, generatedAt, format), LineBreak)
  }

  /** Blocks of a concatenation are the blocks of its parts, numbered on from where the first part stops. */
  lemma {:induction false} BlocksAppend(a: seq<AnomalyResult>, b: seq<AnomalyResult>, first: nat, render: Renderer)
    ensures Blocks(a + b, first, render) == Blocks(a, first, render) + Blocks(b, first + |a|, render)
    decreases |a|
  {
    if a != [] {
      assert (a + b)[0] == a[0];
      assert (a + b)[1..] == a[1..] + b;
      BlocksAppend(a[1..], b, first + 1, render);
    } else {
      assert a + b == b;
    }
  }

  /** The line count of the blocks, when each block has thirteen fixed lines and one per action. */
  lemma {:induction false} BlocksLength(s: seq<AnomalyResult>, first: nat, render: Renderer)
    requires forall number, a :: |render(number, a)| == 13 + |a.recommendedActions|
    ensures |Blocks(s, first, render)| == 13 * |s| + TotalActions(s)
    decreases |s|
  {
    assert TotalActions(s) == if s == [] then 0 else ActionCount(s[0]) + TotalActions(s[1..]);
    if s != [] {
      BlocksLength(s[1..], first + 1, render);
    }
  }

  /** Each rendered block has thirteen fixed lines and one line per recommended action. */
  lemma RenderedBlockLength(format: Formatter)
    ensures forall number, a :: |BlockRenderer(format)(number, a)| == 13 + |a.recommendedActions|
  {
  }

  /** The fourth line counts the anomalies, and the count reads back as the number of anomalies. */
  lemma TotalLineCounts(anomalies: seq<AnomalyResult>, generatedAt: string, format: Formatter)
    ensures ReportLines(anomalies, generatedAt, format)[3] == TotalLabel + NatToDecimal(|anomalies|)
    ensures var line := ReportLines(anomalies, generatedAt, format)[3];
      |TotalLabel| <= |line| && AllDigits(line[|TotalLabel|..]) && ParseDecimal(line[|TotalLabel|..]) == |anomalies|
  {
    DecimalRoundTrip(|anomalies|);
    var line := ReportLines(anomalies, generatedAt, format)[3];
    assert line[|TotalLabel|..] == NatToDecimal(|anomalies|);
  }

  /**
   With thirteen fixed lines per block, the block of the j-th anomaly starts at
   line 13·j plus the number of actions of the anomalies before it.
   */
  lemma BlockStartsAt(s: seq<AnomalyResult>, j: nat, render: Renderer)
    requires j < |s|
    requires forall number, a :: |render(number, a)| == 13 + |a.recommendedActions|
    ensures 13 * j + TotalActions(s[..j]) < |Blocks(s, 1, render)|
    ensures Blocks(s, 1, render)[13 * j + TotalActions(s[..j])] == render(j + 1, s[j])[0]
  {
    assert s == s[..j] + s[j..];
    BlocksAppend(s[..j], s[j..], 1, render);
    BlocksLength(s[..j], 1, render);
    BlocksLength(s[j..], 1 + j, render);
    assert Blocks(s[j..], 1 + j, render) == render(1 + j, s[j]) + Blocks(s[j..][1..], 2 + j, render);
  }

  /**
   The j-th anomaly in severity order, j counted from zero, opens its block with
   the heading numbered j + 1, and that block starts right after the header and
   the blocks of the anomalies before it.
   */
  lemma BlockHeadingAt(anomalies: seq<AnomalyResult>, generatedAt: string, format: Formatter, j: nat)
    requires j < |anomalies|
    ensures var sorted := SortBySeverity(anomalies);
      var at := 5 + 13 * j + TotalActions(sorted[..j]);
      at < |ReportLines(anomalies, generatedAt, format)| &&
      ReportLines(anomalies, generatedAt, format)[at] == AnomalyHeadingLine(j + 1, sorted[j])
  {
    ReportBlockAt(anomalies, generatedAt, format, j);
  }

  /** The j-th anomaly's block starts after the header and the blocks before it. */
  lemma ReportBlockAt(anomalies: seq<AnomalyResult>, generatedAt: string, format: Formatter, j: nat)
    requires j < |anomalies|
    ensures var sorted := SortBySeverity(anomalies);
      var at := 5 + 13 * j + TotalActions(sorted[..j]);
      at < |ReportLines(anomalies, generatedAt, format)| &&
      ReportLines(anomalies, generatedAt, format)[at] == BlockRenderer(format)(j + 1, sorted[j])[0]
  {
    BlockStartsPast(Header(|anomalies|, generatedAt), SortBySeverity(anomalies), Correlation(|anomalies|), format, j);
  }

  /** BlockStartsAt for the report's blocks, counted past the header and with the correlation note after them. */
  lemma BlockStartsPast(header: seq<string>, s: seq<AnomalyResult>, note: seq<string>, format: Formatter, j: nat)
    requires j < |s|
    ensures var render := BlockRenderer(format);
      var at := |header| + 13 * j + TotalActions(s[..j]);
      at < |header + Blocks(s, 1, render) + note| && (header + Blocks(s, 1, render) + note)[at] == render(j + 1, s[j])[0]
  {
    RenderedBlockLength(format);
    BlockStartsAt(s, j, BlockRenderer(format));
  }

  /** No line of the report holds a line break. */
  predicate SingleLines(lines: seq<string>) {
    forall k :: 0 <= k < |lines| ==> '\n' !in lines[k]
  }

  /** Cutting a non-empty report at its line breaks gives back its lines, as long as no line holds a break itself. */
  lemma ReportSplitsIntoLines(anomalies: seq<AnomalyResult>, generatedAt: string, format: Formatter)
    requires anomalies != []
    requires SingleLines(ReportLines(anomalies, generatedAt, format))
    ensures Split(IncidentReport(anomalies, generatedAt, format), '\n') == ReportLines(anomalies, generatedAt, format)
  {
    assert LineBreak == ['\n'];
    SplitJoin(ReportLines(anomalies, generatedAt, format), '\n');
  }

  /** Appending the next anomaly's block after the blocks of the anomalies before it. */
  lemma BlocksStep(prefix: seq<string>, s: seq<AnomalyResult>, i: nat, render: Renderer)
    requires i < |s|
    ensures prefix + Blocks(s[..i], 1, render) + render(i + 1, s[i]) == prefix + Blocks(s[..i + 1], 1, render)
  {
    assert s[..i + 1] == s[..i] + [s[i]];
    BlocksAppend(s[..i], [s[i]], 1, render);
  }

  /** Appending the bullet of the next action. */
  lemma ActionLinesStep(prefix: seq<string>, actions: seq<string>, k: nat)
    requires k < |actions|
    ensures prefix + ActionLines(actions[..k]) + [Bullet + actions[k]] == prefix + ActionLines(actions[..k + 1])
  {
    assert ActionLines(actions[..k]) + [Bullet + actions[k]] == ActionLines(actions[..k + 1]);
  }

  /** An anomaly block is its head, its action lines and its tail, in that order. */
  lemma BlockParts(prefix: seq<string>, number: nat, a: AnomalyResult, format: Formatter)
    ensures prefix + BlockHead(number, a, format) + ActionLines(a.recommendedActions) + BlockTail()
      == prefix + AnomalyBlock(number, a, format)
  {
  }

  /** The body of the report loop: appends the block of one anomaly, one line at a time. */
  method AppendBlock(lines: seq<string>, number: nat, a: AnomalyResult, format: Formatter)
    returns (extended: seq<string>)
    ensures extended == lines + AnomalyBlock(number, a, format)
  {
    ghost var head := BlockHead(number, a, format);
    extended := lines + [
      AnomalyHeading + NatToDecimal(number) + HeadingSeparator + AsciiUpper(a.severity),
      ServiceLabel + a.service,
      MetricLabel + a.metric,
      ConfidenceLabel + format(a.confidence, Percent(1)),
      ImpactLabel + a.impactEstimate,
      Blank,
      AnalysisHeading,
      a.explanation,
      Blank,
      ActionsHeading];
    assert extended == lines + head;
    var actions := a.recommendedActions;
    var k := 0;
    while k < |actions|
      invariant 0 <= k <= |actions|
      invariant extended == lines + head + ActionLines(actions[..k])
    {
      extended := extended + [Bullet + actions[k]];
      ActionLinesStep(lines + head, actions, k);
      k := k + 1;
    }
    assert actions[..k] == actions;
    extended := extended + [Blank, Repeat('-', 40), Blank];
    BlockParts(lines, number, a, format);
  }

  /** The loop of `generate_incident_report`: one block per anomaly, numbered from 1. */
  method AppendBlocks(lines: seq<string>, sorted: seq<AnomalyResult>, format: Formatter)
    returns (extended: seq<string>)
    ensures extended == lines + Blocks(sorted, 1, BlockRenderer(format))
  {
    extended := lines;
    ghost var render := BlockRenderer(format);
    var i := 0;
    while i < |sorted|
      invariant 0 <= i <= |sorted|
      invariant extended == lines + Blocks(sorted[..i], 1, render)
    {
      extended := AppendBlock(extended, i + 1, sorted[i], format);
      BlocksStep(lines, sorted, i, render);
      i := i + 1;
    }
    assert sorted[..i] == sorted;
  }

  /** `generate_incident_report`, appending the report line by line. */
  method GenerateIncidentReport(anomalies: seq<AnomalyResult>, generatedAt: string, format: Formatter)
    returns (report: string)
    ensures report == IncidentReport(anomalies, generatedAt, format)
  {
    if |anomalies| == 0 {
      return NoAnomaliesMessage;
    }
    var sorted := SortBySeverity(anomalies);
    var lines: seq<string> := [ReportTitle, Repeat('=', 50), GeneratedLabel + generatedAt + UtcSuffix];
    lines := lines + [TotalLabel + NatToDecimal(|anomalies|), Blank];
    assert lines == Header(|anomalies|, generatedAt);
    lines := AppendBlocks(lines, sorted, format);
    if |anomalies| > 1 {
      lines := lines + [CorrelationHeading, CorrelationNote, CorrelationAdvice, Blank];
    }
    assert lines == ReportLines(anomalies, generatedAt, format);
    report := Join(lines, LineBreak);
  }

  /** Every detected result has one of the three severities the rules assign, and four actions. */
  lemma DetectedShape(metrics: seq<MetricData>, format: Formatter)
    ensures forall i :: 0 <= i < |Anomalies(metrics, format)| ==>
      var a := Anomalies(metrics, format)[i];
      Rank(a) <= 2 && |a.recommendedActions| == 4
  {
    AnomaliesAreFlaggedSamples(metrics, format);
    forall i | 0 <= i < |Anomalies(metrics, format)|
      ensures Rank(Anomalies(metrics, format)[i]) <= 2
    {
      DetectedRank(FlaggedMetrics(metrics)[i], format);
    }
  }

  /** A detected result is critical, high or medium. */
  lemma DetectedRank(metric: MetricData, format: Formatter)
    ensures AnalyzeMetric(metric, format).detected ==> Rank(AnalyzeMetric(metric, format)) <= 2
  {
    SeverityRanks();
    MetricNamesDistinct();
  }

  /** The total number of actions when every anomaly recommends four. */
  lemma {:induction false} TotalActionsOfFour(s: seq<AnomalyResult>)
    requires forall i :: 0 <= i < |s| ==> |s[i].recommendedActions| == 4
    ensures TotalActions(s) == 4 * |s|
    decreases |s|
  {
    if s != [] {
      TotalActionsOfFour(s[1..]);
      assert TotalActions(s) == ActionCount(s[0]) + TotalActions(s[1..]);
    }
  }

  /**
   From samples to report: with no flagged sample the report is the all-clear
   message; otherwise it is the joined report lines, which count the flagged
   samples and number seventeen per flagged sample besides the header and the
   correlation note.
   */
  lemma PipelineReport(metrics: seq<MetricData>, generatedAt: string, format: Formatter)
    ensures var n := |FlaggedMetrics(metrics)|;
      var anomalies := Anomalies(metrics, format);
      n == 0 ==> IncidentReport(anomalies, generatedAt, format) == NoAnomaliesMessage
    ensures var n := |FlaggedMetrics(metrics)|;
      var anomalies := Anomalies(metrics, format);
      var lines := ReportLines(anomalies, generatedAt, format);
      n >= 1 ==>
        IncidentReport(anomalies, generatedAt, format) == Join(lines, LineBreak) &&
        |lines| == 5 + 17 * n + (if n > 1 then 4 else 0) && lines[3] == TotalLabel + NatToDecimal(n)
  {
    var anomalies := Anomalies(metrics, format);
    AnomaliesAreFlaggedSamples(metrics, format);
    DetectedShape(metrics, format);
    TotalActionsOfFour(anomalies);
    TotalLineCounts(anomalies, generatedAt, format);
  }

  /**
   The detected anomalies are reported critical first, then high, then medium,
   each group in the order of the samples; no other rank occurs.
   */
  lemma PipelineOrder(metrics: seq<MetricData>, format: Formatter)
    ensures var anomalies := Anomalies(metrics, format);
      SortBySeverity(anomalies) == Bucket(anomalies, Rank, 0) + Bucket(anomalies, Rank, 1) + Bucket(anomalies, Rank, 2)
  {
    DetectedShape(metrics, format);
    SortFirstThree(Anomalies(metrics, format), Rank);
  }

  /**
   A larger value of the same metric is never judged less anomalous: it stays
   detected, and its severity ranks at least as high in the report's order.
   */
  lemma SeverityMonotone(m1: MetricData, m2: MetricData, format: Formatter)
    requires m1.metricName == m2.metricName && m1.value <= m2.value
    ensures AnalyzeMetric(m1, format).detected ==> AnalyzeMetric(m2, format).detected
    ensures AnalyzeMetric(m1, format).detected ==> Rank(AnalyzeMetric(m2, format)) <= Rank(AnalyzeMetric(m1, format))
  {
    SeverityRanks();
  }
}
