# Rule-based anomaly detection and incident reporting, in Dafny

This project models the anomaly-detection core of the DevOps demo repository.
The core is `ml-model/anomaly_detection.py`, and it has two halves.

- **`AIAnomalyDetector`** compares each metric sample with a fixed baseline table.
  - Three metric names have a threshold rule:
    - `error_rate` is anomalous above 3× its baseline.
    - `response_time` is anomalous above 2× its baseline.
    - `cpu_usage` is anomalous above the absolute level 0.8.
  - Each rule also derives a severity from a second threshold.
  - Each rule computes a capped confidence `min(cap, (v - b) / b)`.
  - Every other metric name gives a "not detected" result.
  - `detect_anomalies` keeps the detected results in input order.
- **`ExplainableAIReporter.generate_incident_report`** turns the detected results into a text report.
  - An empty list gives a fixed all-clear message.
  - Otherwise it stable-sorts the anomalies by severity rank, with critical < high < medium < low < anything else.
  - It then writes a five-line header and one numbered block per anomaly, with one line per recommended action.
  - A correlation note follows when there is more than one anomaly.
  - The lines are joined with line breaks.

The files are:

- `text.dfy` (module `Text`) holds the Python built-ins the report relies on:
  - `str(n)` for integers, with `ParseDecimal` as its inverse;
  - `str.upper()`, characterised character by character;
  - `c * n`, characterised character by character;
  - `"\n".join`, with `Split` as its inverse.
- `detector.dfy` (module `Detector`) holds the baseline table, the three rules, the dispatch, and `detect_anomalies`. `detect_anomalies` is a method with a loop, proved equal to the filter `Anomalies`.
- `sorting.dfy` (module `Sorting`) holds Python's `sorted(xs, key=k)` for a natural-number key.
  - It is modelled as a stable insertion sort.
  - It is proved sorted and a permutation of its input.
  - It is proved to keep the input order within each key.
  - It is proved equal to the reference ordering "all elements of key 0 in input order, then key 1, …".
- `reporter.dfy` (module `Reporter`) holds the severity ranks, the report's lines as functions, and `generate_incident_report`.
  - `generate_incident_report` is a method. Its loop over the sorted anomalies is the method `AppendBlocks`, which appends each block through `AppendBlock` and its inner loop over the actions. Each is proved equal to the function that describes its lines, and the whole to `IncidentReport`.
  - The file also holds end-to-end lemmas from samples to report.

The detector object has no state that changes: its baseline table is written once at construction. So the table is a module-level constant, and the rules are functions. The reporter object has no fields, so its one operation is a method of the module.

Metric values are real numbers. Text rendering of floating-point numbers (`:.3f`, `:.1f`, `:.1%`) is left to a `Formatter` function that the caller passes in. The wall-clock time printed in the `Generated:` line is a string parameter, `generatedAt`.

## Model

| member | source | states |
|---|---|---|
| Detector.RuleBaselines | ml-model/anomaly_detection.py:46-53 | the baselines used by the three rules are 0.02 (error rate), 0.5 (response time) and 0.3 (CPU usage) |
| Detector.Baseline | ml-model/anomaly_detection.py:71 | the looked-up baseline is never negative, and positive exactly for the names in the table; other names get the default 0 |
| Detector.Min | ml-model/anomaly_detection.py:97 | `min(a, b)` is at most both arguments and is one of them |
| Detector.CappedDeviation | ml-model/anomaly_detection.py:97 | `min(cap, (v - b) / b)` never exceeds the cap, and equals it once v > (cap + 1)·b |
| Detector.TruncateToInt | ml-model/anomaly_detection.py:113 | `int(x)` truncates toward zero: for x ≥ 0 it is the largest integer ≤ x, for x < 0 the smallest ≥ x |
| Detector.FourActionsEach | ml-model/anomaly_detection.py:107-112 | each rule recommends exactly four remediation steps |
| Detector.Normal | ml-model/anomaly_detection.py:81-90 | a not-anomalous result: not detected, confidence 0, severity "none", no actions, impact "None", the sample's name and service and the given explanation |
| Detector.LostRevenue | ml-model/anomaly_detection.py:113 | the impact text opens with "$" and ends with "/hour in lost revenue"; for a non-negative value the amount between reads back as `int(value * 1000)` |
| Detector.ErrorRateExplanation | ml-model/anomaly_detection.py:106 | the explanation opens with "Error rate " and the value to three decimals, and ends with the note on service reliability |
| Detector.ResponseTimeExplanation | ml-model/anomaly_detection.py:132 | the explanation opens with "Response time " and the value to three decimals, and ends with the note on slow performance |
| Detector.CpuUsageExplanation | ml-model/anomaly_detection.py:156 | the explanation opens with "CPU usage " and the value as a percentage, and ends with the note on resource exhaustion |
| Detector.AnalyzeErrorRate | ml-model/anomaly_detection.py:92-116 | detected iff v > 3·b; then confidence 0.95, severity critical iff v > 5·b and high otherwise, the error-rate actions, the explanation text, and the lost-revenue impact exactly when critical; otherwise the "Normal error rate" result |
| Detector.AnalyzeResponseTime | ml-model/anomaly_detection.py:118-142 | detected iff v > 2·b; then confidence 0.9, severity high iff v > 4·b and medium otherwise, the response-time actions and impact; otherwise the "Normal response time" result |
| Detector.AnalyzeCpuUsage | ml-model/anomaly_detection.py:144-166 | detected iff v > 0.8 whatever the baseline; confidence ≤ 0.85, and exactly 0.85 when the baseline is at most 0.4; severity critical iff v > 0.9 and high otherwise; otherwise the "Normal CPU usage" result |
| Detector.AnalyzeMetric | ml-model/anomaly_detection.py:69-90 | name and service are copied; detected iff the sample meets its metric's threshold (0.06, 1.0, 0.8 with the table baselines); confidence in [0, 0.95] and equal to the metric's cap when detected; four actions and a real severity when detected; per-metric severity thresholds 0.1, 2.0, 0.9; a non-detected result has confidence 0, severity "none", no actions and impact "None"; every other name, memory_usage and request_rate included, gives the "No anomaly detected" result |
| Detector.Anomalies | ml-model/anomaly_detection.py:55-67 | the kept results are all detected and no more numerous than the samples |
| Detector.AnomaliesAreFlaggedSamples | ml-model/anomaly_detection.py:55-67 | the kept results are, one for one and in input order, the analyses of exactly the samples that meet their threshold |
| Detector.FlaggedMetricsMembers | ml-model/anomaly_detection.py:62-65 | a sample is among those reported iff it is an input sample meeting its threshold |
| Detector.DetectAnomalies | ml-model/anomaly_detection.py:55-67 | the loop returns exactly the filter `Anomalies`: all detected, at most as many as the samples |
| Sorting.Insert | ml-model/anomaly_detection.py:178 | inserting grows the sequence by one |
| Sorting.InsertPermutes | ml-model/anomaly_detection.py:178 | inserting adds exactly the inserted element to the multiset of elements and drops none |
| Sorting.InsertSorted | ml-model/anomaly_detection.py:178 | inserting into a sequence sorted by key keeps it sorted |
| Sorting.SortByKey | ml-model/anomaly_detection.py:178 | `sorted` keeps the length of its input |
| Sorting.SortPermutes | ml-model/anomaly_detection.py:178 | `sorted` returns a permutation of its input |
| Sorting.SortSorted | ml-model/anomaly_detection.py:178 | the keys of `sorted`'s result never decrease |
| Sorting.BucketInsert | ml-model/anomaly_detection.py:178 | insertion puts the new element in front of the elements with its key and leaves other keys alone |
| Sorting.SortKeepsBuckets | ml-model/anomaly_detection.py:178 | stability: for every key, the elements with that key appear in input order |
| Sorting.SortKeepsSum | ml-model/anomaly_detection.py:178 | sorting keeps the total of any per-element weight |
| Sorting.SortIsGrouping | ml-model/anomaly_detection.py:178 | the stable sort equals the key-0 elements in input order, then key 1, and so on up to the largest key |
| Sorting.SortFirstThree | ml-model/anomaly_detection.py:178 | when every key is 0, 1 or 2, the stable sort is the key-0 elements, then the key-1 elements, then the key-2 elements, each in input order |
| Reporter.SeverityRank | ml-model/anomaly_detection.py:177-178 | the rank of any severity is at most 4, the default for unknown names |
| Reporter.SeverityRanks | ml-model/anomaly_detection.py:177-178 | critical, high, medium and low rank 0 to 3; "none" falls to the default 4 |
| Reporter.SortBySeverityOrder | ml-model/anomaly_detection.py:176-178 | the report order is a permutation with non-decreasing ranks; it keeps input order within each rank; it equals critical, high, medium, low and then the rest, each in input order; it keeps the total number of actions |
| Reporter.Header | ml-model/anomaly_detection.py:180-185 | the header is five lines, opening with the report title, its fourth line the total label and the count |
| Reporter.BlockHead | ml-model/anomaly_detection.py:188-197 | an anomaly block opens with ten lines before its actions |
| Reporter.ActionLines | ml-model/anomaly_detection.py:198-199 | one line per recommended action, in order, each the action after a "- " bullet |
| Reporter.BlockTail | ml-model/anomaly_detection.py:200-202 | three closing lines per block |
| Reporter.Correlation | ml-model/anomaly_detection.py:204-209 | the correlation note has four lines when there are two or more anomalies and none otherwise |
| Reporter.BlocksAppend | ml-model/anomaly_detection.py:187 | the blocks of two consecutive runs of anomalies are the first run's blocks followed by the second's, numbered on |
| Reporter.BlocksLength | ml-model/anomaly_detection.py:187-202 | with thirteen fixed lines per block, the blocks total 13 lines per anomaly plus one per action |
| Reporter.AnomalyBlock | ml-model/anomaly_detection.py:188-202 | each anomaly block has 13 + (number of actions) lines |
| Reporter.BlockLines | ml-model/anomaly_detection.py:188-202 | a block opens with its heading line, has the bulleted actions in order from its eleventh line, and closes with a blank line, forty dashes and a blank line |
| Reporter.HeadingLineReadsBack | ml-model/anomaly_detection.py:188 | the heading line opens with "## Anomaly #", its digits read back as the block's number, and it ends with ": " and the severity in capitals |
| Reporter.Blocks | ml-model/anomaly_detection.py:187 | with non-empty blocks, there are no block lines exactly when there are no anomalies |
| Reporter.ReportLines | ml-model/anomaly_detection.py:180-209 | the report lines open with the title and number 5 + 13·n + (total actions), plus 4 when n > 1 |
| Reporter.TotalLineCounts | ml-model/anomaly_detection.py:184 | the fourth line is "Total Anomalies: " and the count, and its digits read back as the number of anomalies |
| Reporter.BlockStartsAt | ml-model/anomaly_detection.py:187-202 | for any renderer with 13 fixed lines per block, the block of the j-th anomaly starts after 13·j lines plus the actions of the earlier anomalies |
| Reporter.BlockHeadingAt | ml-model/anomaly_detection.py:187-188 | the j-th anomaly in severity order has its heading, numbered j + 1 with its severity in capitals, right after the header and the earlier blocks |
| Reporter.ReportSplitsIntoLines | ml-model/anomaly_detection.py:211 | cutting the joined report at its line breaks gives back its lines |
| Reporter.AppendBlock | ml-model/anomaly_detection.py:188-202 | appending one anomaly's lines, with the inner loop over its actions, extends the report by exactly that anomaly's block |
| Reporter.AppendBlocks | ml-model/anomaly_detection.py:187-202 | the loop over the sorted anomalies extends the report by exactly their blocks, numbered from 1 |
| Reporter.GenerateIncidentReport | ml-model/anomaly_detection.py:171-211 | the method produces exactly `IncidentReport`: the all-clear message for no anomalies, otherwise header, blocks in severity order and the correlation note, joined by line breaks |
| Reporter.IncidentReport | ml-model/anomaly_detection.py:171-211 | the report is the all-clear message iff there are no anomalies, and opens with the report title iff there are some |
| Reporter.DetectedRank | ml-model/anomaly_detection.py:98 | a detected result ranks critical, high or medium |
| Reporter.DetectedShape | ml-model/anomaly_detection.py:98 | every detected result ranks critical, high or medium and carries four actions |
| Reporter.TotalActionsOfFour | ml-model/anomaly_detection.py:198-199 | anomalies with four actions each contribute four action lines apiece |
| Reporter.PipelineReport | ml-model/anomaly_detection.py:269-272 | with no flagged sample the report is the all-clear message; with n ≥ 1 flagged samples it is the joined report lines, which number 5 + 17·n, plus 4 when n > 1, and whose total line carries n |
| Reporter.PipelineOrder | ml-model/anomaly_detection.py:269-272 | the detected anomalies are reported critical first, then high, then medium, each in sample order, and nothing else |
| Reporter.SeverityMonotone | ml-model/anomaly_detection.py:94-98 | a larger value of the same metric stays detected and never ranks as less severe |
| Text.NatToDecimal | ml-model/anomaly_detection.py:188 | `str(n)` is a non-empty digit string with no leading zero unless n is 0 |
| Text.DecimalRoundTrip | ml-model/anomaly_detection.py:184 | the decimal rendering of a count reads back as that count |
| Text.DecimalInjective | ml-model/anomaly_detection.py:188 | distinct anomaly numbers render differently |
| Text.IntToDecimal | ml-model/anomaly_detection.py:113 | `str` of an integer starts with a minus sign iff it is negative, followed by the digits of its magnitude |
| Text.AsciiUpper | ml-model/anomaly_detection.py:188 | `upper()` keeps the length, leaves no lowercase ASCII letter, moves each lowercase letter to its capital and keeps every other character |
| Text.Repeat | ml-model/anomaly_detection.py:182 | `c * n` is n copies of c |
| Text.Join | ml-model/anomaly_detection.py:211 | joining nothing gives the empty string; a join opens with its first part, followed by the separator when there are more parts |
| Text.SplitJoin | ml-model/anomaly_detection.py:211 | splitting a join at its one-character separator gives back the parts when no part contains the separator |

## Left out

- `simulate_metrics` is not modelled, because it draws its samples from a random number generator.
- `main` is not modelled: it prints, writes a file named after `time.time()`, logs, and returns an exit code. Only its composition of detection and reporting is stated, by `Reporter.PipelineReport` and `Reporter.PipelineOrder`.
- The time printed in the `Generated:` line is read from the wall clock. It is the parameter `generatedAt`.
- Floating-point text formatting (`:.3f`, `:.1f`, `:.1%`) is not modelled. It is the `Formatter` parameter, so the explanation texts and the confidence line are stated up to that formatter.
- IEEE-754 rounding is not modelled. Values are exact reals, so thresholds such as 3 × 0.02 are exactly 0.06. A sample exactly at a threshold may be judged differently by Python's floating point.
- The `timestamp` and `labels` fields of a metric sample are not modelled, because the detector never reads them.
- Logging is not modelled, because it does not affect any result.
- `app/app.py` is not part of this model. It is the web front end: HTTP routes, HTML templates, environment variables and sleeps.
- Detector.AnalyzeErrorRate: requires a positive baseline. With a zero baseline Python returns the "Normal error rate" result without dividing for every value at most 0, and raises a division by zero only once the rule fires. The dispatch only ever passes the positive table values, so this case does not arise in the detector. The same holds for `Detector.AnalyzeResponseTime`, and for `Detector.AnalyzeCpuUsage`, whose rule fires above 0.8.
- Text.AsciiUpper: only ASCII letters are capitalised. Python's `upper()` also maps other Unicode letters, but the detector's severities are ASCII.
- Reporter.ReportSplitsIntoLines: it requires that no line holds a line break. The service names, explanations, actions, formatted numbers and `generatedAt` come from outside, and the statement holds only for those without line breaks.
