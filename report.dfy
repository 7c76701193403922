/** generate_report: the summary counts, the health score and the report
    record built from the three buckets. */
module Reports {
  import opened Text
  import opened Pods

  const Namespace := "dev"
  const Environment := "QA"
  /** The report lists at most this many critical issues and warnings. */
  const TopIssues := 10

  datatype Summary = Summary(totalPods: nat, healthy: nat, warnings: nat, critical: nat, healthScore: nat)

  datatype Report = Report(
    timestamp: string,
    namespace: string,
    environment: string,
    summary: Summary,
    criticalIssues: seq<PodEntry>,
    warnings: seq<PodEntry>,
    healthyCount: nat)

  /** The percentage of healthy pods among the classified ones, rounded
      down, and 0 when nothing was classified. */
  function HealthScore(healthy: nat, total: nat): (score: nat)
    requires healthy <= total
    ensures score <= 100
    ensures healthy == 0 ==> score == 0
    ensures total > 0 ==> score * total <= healthy * 100 < (score + 1) * total
    ensures score == 100 <==> total > 0 && healthy == total
  {
    if total > 0 then
      var score := healthy * 100 / total;
      ScoreBounds(healthy, total);
      score
    else 0
  }

  lemma ScoreBounds(healthy: nat, total: nat)
    requires 0 < total && healthy <= total
    ensures var score := healthy * 100 / total;
      && score * total <= healthy * 100 < (score + 1) * total
      && score <= 100
      && (score == 100 <==> healthy == total)
  {
    var score := healthy * 100 / total;
    assert score * total + (healthy * 100) % total == healthy * 100;
    assert score * total <= 100 * total;
    assert score <= 100;
    if healthy == total {
      assert healthy * 100 / total == 100;
    }
    if score == 100 {
      assert 100 * total <= healthy * 100;
    }
  }

  /** The first TopIssues entries of a bucket, in bucket order (`[:10]`). */
  function Top(bucket: seq<PodEntry>): (top: seq<PodEntry>)
    ensures |top| == if |bucket| < TopIssues then |bucket| else TopIssues
    ensures top <= bucket
  {
    if |bucket| <= TopIssues then bucket else bucket[..TopIssues]
  }

  /** The report of generate_report for the buckets parse_pods returned. The
      summary counts are the full bucket sizes; only the issue lists are cut
      to their first TopIssues entries. */
  function BuildReport(critical: seq<PodEntry>, warnings: seq<PodEntry>, healthy: seq<PodEntry>,
                       timestamp: string): (r: Report)
    ensures r.summary.totalPods == |critical| + |warnings| + |healthy|
    ensures r.summary.critical == |critical| && r.summary.warnings == |warnings|
    ensures r.summary.healthy == |healthy| && r.healthyCount == |healthy|
    ensures r.summary.healthScore <= 100
    ensures r.summary.totalPods == 0 ==> r.summary.healthScore == 0
    ensures r.summary.healthScore == 100 <==> r.summary.totalPods > 0 && |healthy| == r.summary.totalPods
    ensures r.criticalIssues <= critical && |r.criticalIssues| <= TopIssues
    ensures |r.criticalIssues| == TopIssues || r.criticalIssues == critical
    ensures r.warnings <= warnings && |r.warnings| <= TopIssues
    ensures |r.warnings| == TopIssues || r.warnings == warnings
    ensures r.namespace == Namespace && r.environment == Environment && r.timestamp == timestamp
  {
    var total := |critical| + |warnings| + |healthy|;
    Report(
      timestamp, Namespace, Environment,
      Summary(total, |healthy|, |warnings|, |critical|, HealthScore(|healthy|, total)),
      Top(critical), Top(warnings), |healthy|)
  }

  /** The report generate_report builds for `podOutput`. */
  function ReportOf(podOutput: string, isoNow: string): (r: Report)
    ensures r.timestamp == isoNow + "Z"
    ensures r.summary.totalPods <= |PodLines(podOutput)|
  {
    var buckets := Buckets(podOutput);
    BuildReport(buckets.0, buckets.1, buckets.2, isoNow + "Z")
  }

  /** generate_report, with the time of the run given as the text of
      datetime.isoformat(); the report stamps it with a trailing "Z". */
  method GenerateReport(podOutput: string, isoNow: string) returns (report: Report)
    ensures report == ReportOf(podOutput, isoNow)
  {
    var critical, warnings, healthy := ParsePods(podOutput);
    report := BuildReport(critical, warnings, healthy, isoNow + "Z");
  }

  /** The report for the rows of `lines`. */
  function ReportOfLines(lines: seq<string>, timestamp: string): Report {
    var rows := Rows(lines);
    BuildReport(Bucket(rows, Critical), Bucket(rows, Warning), Bucket(rows, Healthy), timestamp)
  }

  /** The summary's total counts every classified row exactly once, and the
      rows it leaves out are exactly the unclassified ones. */
  lemma {:induction false} TotalCountsClassifiedRows(lines: seq<string>, timestamp: string)
    ensures ReportOfLines(lines, timestamp).summary.totalPods + Unclassified(Rows(lines)) == |Rows(lines)|
  {
    BucketsPartitionRows(Rows(lines));
  }

  /** Of n crash-looping rows the report lists min(n, 10), yet its summary
      counts all n, and the health score is 0. */
  lemma {:induction false} CrashLoopsTruncated(lines: seq<string>, timestamp: string)
    requires forall i :: 0 <= i < |lines| ==>
               var r := ParseLine(lines[i]);
               r.Some? && Contains(r.value.status, CrashLoop)
    ensures var report := ReportOfLines(lines, timestamp);
      && report.summary.critical == |lines|
      && |report.criticalIssues| == (if |lines| < TopIssues then |lines| else TopIssues)
      && report.summary.healthScore == 0
  {
    forall i | 0 <= i < |lines|
      ensures LineIn(lines[i], Critical)
    {
      var r := ParseLine(lines[i]);
      assert Classify(r.value.status, r.value.restarts) == Some(Critical);
    }
    var rows := Rows(lines);
    EveryLineInBucket(lines, Critical);
    BucketsPartitionRows(rows);
    assert |Bucket(rows, Healthy)| == 0;
  }
}
