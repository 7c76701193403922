/** The pure part of main: the pod table parsed, the report built and the
    Markdown rendered, with example runs: a three-pod table, an empty table,
    fifteen crash loops and a Pending pod. */
module Pipeline {
  import opened Text
  import opened Pods
  import opened Reports
  import opened Markdown

  /** The Markdown text main publishes for a given table and time. */
  function Rendered(podOutput: string, isoNow: string): string {
    Message(ReportOf(podOutput, isoNow))
  }

  lemma WordNoNewline(w: string)
    requires IsWord(w)
    ensures NoNewline(w)
  {
    forall k | 0 <= k < |w| ensures w[k] != '\n' {
      assert !IsSpace(w[k]);
    }
  }

  lemma {:induction false} WordEntriesSingleLine(es: seq<PodEntry>)
    requires WordEntries(es)
    ensures SingleLineEntries(es)
  {
    forall k | 0 <= k < |es| ensures NoNewline(es[k].name) && NoNewline(es[k].status) {
      WordNoNewline(es[k].name);
      WordNoNewline(es[k].status);
    }
  }

  lemma TopSingleLine(es: seq<PodEntry>)
    requires SingleLineEntries(es)
    ensures SingleLineEntries(Top(es))
  {
    var t := Top(es);
    forall k | 0 <= k < |t| ensures NoNewline(t[k].name) && NoNewline(t[k].status) {
      assert t[k] == es[k];
    }
  }

  /** Pod names and statuses are tokens of the table, so a report built
      from any table at a newline-free time keeps every field on one line. */
  lemma ReportSingleLine(podOutput: string, isoNow: string)
    requires NoNewline(isoNow)
    ensures SingleLineFields(ReportOf(podOutput, isoNow))
  {
    var rows := Rows(PodLines(podOutput));
    RowsAreWords(PodLines(podOutput));
    IssuesSingleLine(rows, Critical);
    IssuesSingleLine(rows, Warning);
    StampSingleLine(isoNow);
    var r := ReportOf(podOutput, isoNow);
    assert r.criticalIssues == Top(Bucket(rows, Critical));
    assert r.warnings == Top(Bucket(rows, Warning));
  }

  lemma IssuesSingleLine(rows: seq<StatusRecord>, sev: Severity)
    requires WordRows(rows)
    ensures SingleLineEntries(Top(Bucket(rows, sev)))
  {
    BucketIsWords(rows, sev);
    WordEntriesSingleLine(Bucket(rows, sev));
    TopSingleLine(Bucket(rows, sev));
  }

  lemma StampSingleLine(isoNow: string)
    requires NoNewline(isoNow)
    ensures NoNewline(isoNow + "Z") && NoNewline(Namespace) && NoNewline(Environment)
  {
    assert NoNewline(isoNow + "Z");
  }

  /** Whatever the table, the published text read line by line is exactly
      the rendered lines of its report. */
  lemma RenderedLines(podOutput: string, isoNow: string)
    requires NoNewline(isoNow)
    ensures Split(Rendered(podOutput, isoNow), '\n') == MessageLines(ReportOf(podOutput, isoNow)) + [""]
  {
    ReportSingleLine(podOutput, isoNow);
    MessageSplit(ReportOf(podOutput, isoNow));
  }

  // ------------------------------------------------------------ example runs

  /** One line of the kubectl table: the four columns, one space apart. */
  function TableLine(name: string, ready: string, status: string, restarts: string): string {
    Join([name, ready, status, restarts], ' ')
  }

  /** Words joined by single spaces make a line with no newline that starts
      and ends with a non-space character. */
  lemma {:induction false} JoinOfWords(ws: seq<string>)
    requires |ws| >= 1 && forall i :: 0 <= i < |ws| ==> IsWord(ws[i])
    ensures var l := Join(ws, ' ');
      && |l| > 0 && '\n' !in l && !IsSpace(l[0]) && !IsSpace(l[|l| - 1])
    decreases |ws|
  {
    if |ws| > 1 {
      var w := ws[0];
      assert IsWord(w);
      JoinOfWords(ws[1..]);
      var t := Join(ws[1..], ' ');
      var l := w + [' '] + t;
      assert l == Join(ws, ' ');
      assert l[0] == w[0];
      assert l[|l| - 1] == t[|t| - 1];
      forall k | 0 <= k < |l| ensures l[k] != '\n' {
        if k < |w| {
          assert l[k] == w[k];
        } else if k > |w| {
          assert l[k] == t[k - |w| - 1];
        }
      }
    } else {
      assert IsWord(ws[0]);
    }
  }

  lemma TableLineStartsAndEnds(name: string, ready: string, status: string, restarts: string)
    requires IsWord(name) && IsWord(ready) && IsWord(status) && IsWord(restarts)
    ensures var l := TableLine(name, ready, status, restarts);
      && |l| > 0 && '\n' !in l && !IsSpace(l[0]) && !IsSpace(l[|l| - 1])
  {
    JoinOfWords([name, ready, status, restarts]);
  }

  lemma ParseTableLine(name: string, ready: string, status: string, restarts: string)
    requires IsWord(name) && IsWord(ready) && IsWord(status) && IsWord(restarts)
    ensures ParseLine(TableLine(name, ready, status, restarts))
      == Some(StatusRecord(name, ready, status, RestartCount(restarts)))
  {
    ParseColumns([name, ready, status, restarts]);
  }

  lemma RowsOfThree(a: string, b: string, c: string)
    requires ParseLine(a).Some? && ParseLine(b).Some? && ParseLine(c).Some?
    ensures Rows([a, b, c]) == [ParseLine(a).value, ParseLine(b).value, ParseLine(c).value]
  {
    assert [a][..0] == [];
    assert Rows([a]) == [ParseLine(a).value];
    assert [a, b][..1] == [a];
    assert Rows([a, b]) == [ParseLine(a).value, ParseLine(b).value];
    assert [a, b, c][..2] == [a, b];
  }

  lemma BucketOfThree(x: StatusRecord, y: StatusRecord, z: StatusRecord, sev: Severity)
    ensures Bucket([x, y, z], sev) ==
      (if SeverityOf(x) == Some(sev) then [Entry(x)] else [])
      + (if SeverityOf(y) == Some(sev) then [Entry(y)] else [])
      + (if SeverityOf(z) == Some(sev) then [Entry(z)] else [])
  {
    var inX := if SeverityOf(x) == Some(sev) then [Entry(x)] else [];
    var inY := if SeverityOf(y) == Some(sev) then [Entry(y)] else [];
    BucketSnoc([], x, sev);
    assert [] + [x] == [x];
    assert Bucket([x], sev) == inX;
    BucketSnoc([x], y, sev);
    assert [x] + [y] == [x, y];
    assert Bucket([x, y], sev) == inX + inY;
    BucketSnoc([x, y], z, sev);
    assert [x, y] + [z] == [x, y, z];
  }

  lemma BucketsOfThree(x: StatusRecord, y: StatusRecord, z: StatusRecord)
    requires SeverityOf(x) == Some(Healthy) && SeverityOf(y) == Some(Critical) && SeverityOf(z) == Some(Warning)
    ensures Bucket([x, y, z], Critical) == [Entry(y)]
    ensures Bucket([x, y, z], Warning) == [Entry(z)]
    ensures Bucket([x, y, z], Healthy) == [Entry(x)]
  {
    BucketOfThree(x, y, z, Critical);
    assert [] + [Entry(y)] + [] == [Entry(y)];
    BucketOfThree(x, y, z, Warning);
    assert [] + [] + [Entry(z)] == [Entry(z)];
    BucketOfThree(x, y, z, Healthy);
    assert [Entry(x)] + [] + [] == [Entry(x)];
  }

  lemma TokensOfExample()
    ensures IsWord(Running) && IsWord(CrashLoop) && IsWord("0") && IsWord("5") && IsWord("150")
    ensures RestartCount("0") == 0 && RestartCount("5") == 5 && RestartCount("150") == 150
  {
    assert "150"[..2] == "15" && "15"[..1] == "1" && "1"[..0] == "";
  }

  lemma ClassesOfExample()
    ensures Classify(Running, 0) == Some(Healthy)
    ensures Classify(CrashLoop, 5) == Some(Critical)
    ensures Classify(Running, 150) == Some(Warning)
  {
    assert OccursAt(CrashLoop, CrashLoop, 0);
  }

  /** The table of the three-pod example, for any pod names and ready
      columns: a healthy pod, a crash-looping one and one restarted 150
      times. */
  function ThreePods(a: string, ra: string, b: string, rb: string, c: string, rc: string): string {
    Join([TableLine(a, ra, Running, "0"), TableLine(b, rb, CrashLoop, "5"), TableLine(c, rc, Running, "150")], '\n')
  }

  lemma ThreePodsRows(a: string, ra: string, b: string, rb: string, c: string, rc: string)
    requires IsWord(a) && IsWord(ra) && IsWord(b) && IsWord(rb) && IsWord(c) && IsWord(rc)
    ensures Rows(PodLines(ThreePods(a, ra, b, rb, c, rc))) == [
      StatusRecord(a, ra, Running, 0), StatusRecord(b, rb, CrashLoop, 5), StatusRecord(c, rc, Running, 150)]
  {
    TokensOfExample();
    var la, lb, lc := TableLine(a, ra, Running, "0"), TableLine(b, rb, CrashLoop, "5"), TableLine(c, rc, Running, "150");
    TableLineStartsAndEnds(a, ra, Running, "0");
    TableLineStartsAndEnds(b, rb, CrashLoop, "5");
    TableLineStartsAndEnds(c, rc, Running, "150");
    var s := Join([la, lb, lc], '\n');
    assert [lb, lc][1..] == [lc] && [la, lb, lc][1..] == [lb, lc];
    assert Join([lc], '\n') == lc;
    var t := lb + ['\n'] + lc;
    assert Join([lb, lc], '\n') == t;
    assert s == la + ['\n'] + t;
    assert s[0] == la[0];
    assert t[|t| - 1] == lc[|lc| - 1];
    assert s[|s| - 1] == t[|t| - 1];
    PodLinesOfJoin([la, lb, lc]);
    ParseTableLine(a, ra, Running, "0");
    ParseTableLine(b, rb, CrashLoop, "5");
    ParseTableLine(c, rc, Running, "150");
    RowsOfThree(la, lb, lc);
  }

  /** Three pods, one each of healthy, crash-looping and restarting too often:
      each lands in its own bucket. */
  lemma ScenarioThreePods(a: string, ra: string, b: string, rb: string, c: string, rc: string)
    requires IsWord(a) && IsWord(ra) && IsWord(b) && IsWord(rb) && IsWord(c) && IsWord(rc)
    ensures Buckets(ThreePods(a, ra, b, rb, c, rc)) ==
      ([PodEntry(b, CrashLoop, 5)], [PodEntry(c, Running, 150)], [PodEntry(a, Running, 0)])
  {
    var x, y, z := StatusRecord(a, ra, Running, 0), StatusRecord(b, rb, CrashLoop, 5), StatusRecord(c, rc, Running, 150);
    ThreePodsRows(a, ra, b, rb, c, rc);
    ClassesOfExample();
    BucketsOfThree(x, y, z);
  }

  /** ... and the report counts three pods with a health score of 33. */
  lemma ScenarioThreePodsReport(a: string, ra: string, b: string, rb: string, c: string, rc: string, isoNow: string)
    requires IsWord(a) && IsWord(ra) && IsWord(b) && IsWord(rb) && IsWord(c) && IsWord(rc)
    ensures ReportOf(ThreePods(a, ra, b, rb, c, rc), isoNow).summary == Summary(3, 1, 1, 1, 33)
  {
    ScenarioThreePods(a, ra, b, rb, c, rc);
    var bs := Buckets(ThreePods(a, ra, b, rb, c, rc));
    OneOfEach(bs.0, bs.1, bs.2, isoNow + "Z");
  }

  lemma OneOfEach(critical: seq<PodEntry>, warnings: seq<PodEntry>, healthy: seq<PodEntry>, timestamp: string)
    requires |critical| == 1 && |warnings| == 1 && |healthy| == 1
    ensures BuildReport(critical, warnings, healthy, timestamp).summary == Summary(3, 1, 1, 1, 33)
  {
    assert 1 * 100 / 3 == 33;
  }

  /** Input that is empty or only whitespace: no rows, a report of zeros,
      and a message with the red icon, a 0% score and neither issue
      section. */
  lemma ScenarioEmpty(podOutput: string, isoNow: string)
    requires AllSpace(podOutput)
    ensures Buckets(podOutput) == ([], [], [])
    ensures var r := ReportOf(podOutput, isoNow);
      && r.summary == Summary(0, 0, 0, 0, 0)
      && r.criticalIssues == [] && r.warnings == [] && r.healthyCount == 0
  {
    BlankTableHasNoRows(podOutput);
  }

  lemma BlankTableHasNoRows(podOutput: string)
    requires AllSpace(podOutput)
    ensures Rows(PodLines(podOutput)) == []
  {
    assert Strip(podOutput) == [];
    assert IndexOf("", '\n') == 0;
    assert PodLines(podOutput) == [""];
    assert Words("") == [];
    assert [""][..0] == [];
  }

  lemma ScenarioEmptyMessage(podOutput: string, isoNow: string)
    requires AllSpace(podOutput)
    ensures var ls := MessageLines(ReportOf(podOutput, isoNow));
      && ls[0] == "# " + RedIcon + " QA Environment Status Report"
      && ls[8] == "- **Health Score:** " + "0" + "%"
      && CriticalHeading !in ls && WarningsHeading !in ls
  {
    var r := ReportOf(podOutput, isoNow);
    ScenarioEmpty(podOutput, isoNow);
    MessageLayout(r);
    CriticalHeadingShown(r);
    WarningsHeadingShown(r);
    assert Decimal(0) == "0";
  }

  /** A table of fifteen crash-looping pods: the summary counts all fifteen
      and the report lists the first ten. */
  lemma ScenarioManyCrashLoops(podOutput: string, isoNow: string)
    requires |PodLines(podOutput)| == 15
    requires forall i :: 0 <= i < 15 ==>
               var r := ParseLine(PodLines(podOutput)[i]);
               r.Some? && Contains(r.value.status, CrashLoop)
    ensures var report := ReportOf(podOutput, isoNow);
      && report.summary.critical == 15 && report.summary.totalPods == 15
      && |report.criticalIssues| == 10
      && report.criticalIssues == Buckets(podOutput).0[..10]
  {
    var lines := PodLines(podOutput);
    CrashLoopsTruncated(lines, isoNow + "Z");
    assert ReportOf(podOutput, isoNow) == ReportOfLines(lines, isoNow + "Z");
    TotalCountsClassifiedRows(lines, isoNow + "Z");
    EveryLineInBucket(lines, Critical) by {
      forall i | 0 <= i < |lines|
        ensures LineIn(lines[i], Critical)
      {
        var r := ParseLine(lines[i]);
        assert Classify(r.value.status, r.value.restarts) == Some(Critical);
      }
    }
  }

  /** A pod that is Pending with no restarts is in no bucket, wherever its
      line stands: the report is the one of the table without it. */
  lemma PendingUnclassified(name: string, ready: string)
    requires IsWord(name) && IsWord(ready)
    ensures var r := ParseLine(TableLine(name, ready, "Pending", "0"));
      r.Some? && SeverityOf(r.value) == None
  {
    assert IsWord("Pending") && IsWord("0");
    ParseTableLine(name, ready, "Pending", "0");
    assert !Contains("Pending", CrashLoop);
  }

  /** A Pending pod, wherever it stands in the listing, changes nothing in
      the report. */
  lemma ScenarioPending(before: seq<string>, name: string, ready: string, after: seq<string>, timestamp: string)
    requires IsWord(name) && IsWord(ready)
    ensures var d := TableLine(name, ready, "Pending", "0");
      ReportOfLines(before + [d] + after, timestamp) == ReportOfLines(before + after, timestamp)
  {
    var d := TableLine(name, ready, "Pending", "0");
    PendingUnclassified(name, ready);
    UnclassifiedLineIgnored(before, d, after, Critical);
    UnclassifiedLineIgnored(before, d, after, Warning);
    UnclassifiedLineIgnored(before, d, after, Healthy);
  }
}
