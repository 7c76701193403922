/** format_markdown_message: the report rendered as Markdown text, grown
    piece by piece like the source does. The text is specified as a list of
    lines, each followed by a newline. */
module Markdown {
  import opened Text
  import opened Pods
  import opened Reports

  const GreenIcon := "\U{1F7E2}"
  const YellowIcon := "\U{1F7E1}"
  const RedIcon := "\U{1F534}"

  const SummaryHeading := "## \U{1F4CA} Summary"
  const CriticalHeading := "## \U{1F534} Critical Issues"
  const WarningsHeading := "## \U{26A0}\U{FE0F} Warnings (High Restart Count)"
  const HealthyHeading := "## \U{2705} Healthy Services"

  /** The icon of the title: green from 95 up, yellow from 80 up, red below. */
  function HealthIcon(score: nat): (icon: string)
    ensures icon == GreenIcon <==> score >= 95
    ensures icon == YellowIcon <==> 80 <= score < 95
    ensures icon == RedIcon <==> score < 80
  {
    if score >= 95 then GreenIcon
    else if score >= 80 then YellowIcon
    else RedIcon
  }

  /** The first line: a level-one Markdown heading. */
  function Title(r: Report): (t: string)
    ensures |t| > 2 && t[0] == '#' && t[1] == ' '
  {
    "# " + HealthIcon(r.summary.healthScore) + " QA Environment Status Report"
  }

  /** The lines of the opening block: title, environment, namespace,
      timestamp and the five summary figures, then a blank line. */
  function HeaderLines(r: Report): seq<string> {
    var s := r.summary;
    [ Title(r),
      "",
      "**Environment:** " + r.environment + "  ",
      "**Namespace:** " + r.namespace + "  ",
      "**Timestamp:** " + r.timestamp,
      "",
      SummaryHeading,
      "",
      "- **Health Score:** " + Decimal(s.healthScore) + "%",
      "- **Total Pods:** " + Decimal(s.totalPods),
      "- **Healthy:** " + Decimal(s.healthy) + " \U{2705}",
      "- **Warnings:** " + Decimal(s.warnings) + " \U{26A0}\U{FE0F}",
      "- **Critical:** " + Decimal(s.critical) + " \U{1F534}",
      "" ]
  }

  /** The four lines of one listed pod. */
  function EntryLines(e: PodEntry): seq<string> {
    [ "- **" + e.name + "**",
      "  - Status: `" + e.status + "`",
      "  - Restarts: " + Decimal(e.restarts),
      "" ]
  }

  /** The lines of the pods of a list, in list order. */
  function EntriesLines(es: seq<PodEntry>): (ls: seq<string>)
    ensures |ls| == 4 * |es|
  {
    if es == [] then [] else EntriesLines(es[..|es| - 1]) + EntryLines(es[|es| - 1])
  }

  /** A heading, a blank line and the pods of a list; nothing for an empty list. */
  function SectionLines(heading: string, es: seq<PodEntry>): seq<string> {
    if es == [] then [] else [heading, ""] + EntriesLines(es)
  }

  /** The closing block: the healthy heading, a blank line, the healthy count. */
  function FooterLines(r: Report): seq<string> {
    [HealthyHeading, "", Decimal(r.summary.healthy) + " pods running normally"]
  }

  /** The header, the critical and warnings sections, then the footer. */
  function MessageLines(r: Report): seq<string> {
    HeaderLines(r)
      + SectionLines(CriticalHeading, r.criticalIssues)
      + SectionLines(WarningsHeading, r.warnings)
      + FooterLines(r)
  }

  /** Every line followed by a newline. */
  function Unlines(ls: seq<string>): string {
    if ls == [] then "" else ls[0] + "\n" + Unlines(ls[1..])
  }

  /** The Markdown text of a report. */
  function Message(r: Report): string {
    Unlines(MessageLines(r))
  }

  /** format_markdown_message. */
  method FormatMarkdownMessage(report: Report) returns (markdown: string)
    ensures markdown == Message(report)
  {
    var timestamp := report.timestamp;
    var summary := report.summary;

    var healthIcon;
    if summary.healthScore >= 95 {
      healthIcon := GreenIcon;
    } else if summary.healthScore >= 80 {
      healthIcon := YellowIcon;
    } else {
      healthIcon := RedIcon;
    }
    assert healthIcon == HealthIcon(summary.healthScore);

    markdown :=
      "# " + healthIcon + " QA Environment Status Report" + "\n" + (
      "" + "\n" + (
      "**Environment:** " + report.environment + "  " + "\n" + (
      "**Namespace:** " + report.namespace + "  " + "\n" + (
      "**Timestamp:** " + timestamp + "\n" + (
      "" + "\n" + (
      SummaryHeading + "\n" + (
      "" + "\n" + (
      "- **Health Score:** " + Decimal(summary.healthScore) + "%" + "\n" + (
      "- **Total Pods:** " + Decimal(summary.totalPods) + "\n" + (
      "- **Healthy:** " + Decimal(summary.healthy) + " \U{2705}" + "\n" + (
      "- **Warnings:** " + Decimal(summary.warnings) + " \U{26A0}\U{FE0F}" + "\n" + (
      "- **Critical:** " + Decimal(summary.critical) + " \U{1F534}" + "\n" + (
      "" + "\n"
      )))))))))))));
    HeaderText(report);
    assert markdown == Unlines(HeaderLines(report));

    markdown := AppendSection(markdown, CriticalHeading, report.criticalIssues);
    markdown := AppendSection(markdown, WarningsHeading, report.warnings);

    markdown := markdown + (HealthyHeading + "\n" + "\n" + Decimal(summary.healthy) + " pods running normally" + "\n");
    FooterText(report);
    MessageText(report);
  }

  /** One of the two issue sections of format_markdown_message: nothing for
      an empty list, otherwise the heading and then each pod in list order. */
  method AppendSection(text: string, heading: string, entries: seq<PodEntry>) returns (markdown: string)
    ensures markdown == text + Unlines(SectionLines(heading, entries))
  {
    markdown := text;
    if entries != [] {
      markdown := markdown + (heading + "\n" + "\n");
      markdown := AppendEntries(markdown, entries);
      SectionText(heading, entries);
    } else {
      assert text + "" == text;
    }
  }

  /** The loop of a section: the four lines of each pod, in list order. */
  method AppendEntries(text: string, entries: seq<PodEntry>) returns (markdown: string)
    ensures markdown == text + Unlines(EntriesLines(entries))
  {
    markdown := text;
    assert markdown + "" == markdown;
    for i := 0 to |entries|
      invariant markdown == text + Unlines(EntriesLines(entries[..i]))
    {
      var entry := entries[i];
      markdown := markdown + ("- **" + entry.name + "**" + "\n");
      markdown := markdown + ("  - Status: `" + entry.status + "`" + "\n");
      markdown := markdown + ("  - Restarts: " + Decimal(entry.restarts) + "\n" + "\n");
      EntryAppended(text, entries, i);
    }
    assert entries[..|entries|] == entries;
  }

  // ------------------------------------------------------------ text of lines

  lemma {:induction false} UnlinesAppend(a: seq<string>, b: seq<string>)
    ensures Unlines(a + b) == Unlines(a) + Unlines(b)
  {
    if a != [] {
      assert (a + b)[1..] == a[1..] + b;
      UnlinesAppend(a[1..], b);
    } else {
      assert a + b == b;
    }
  }

  /** The opening block as format_markdown_message writes it. */
  lemma HeaderText(r: Report)
    ensures Unlines(HeaderLines(r)) ==
      "# " + HealthIcon(r.summary.healthScore) + " QA Environment Status Report" + "\n" + (
      "" + "\n" + (
      "**Environment:** " + r.environment + "  " + "\n" + (
      "**Namespace:** " + r.namespace + "  " + "\n" + (
      "**Timestamp:** " + r.timestamp + "\n" + (
      "" + "\n" + (
      SummaryHeading + "\n" + (
      "" + "\n" + (
      "- **Health Score:** " + Decimal(r.summary.healthScore) + "%" + "\n" + (
      "- **Total Pods:** " + Decimal(r.summary.totalPods) + "\n" + (
      "- **Healthy:** " + Decimal(r.summary.healthy) + " \U{2705}" + "\n" + (
      "- **Warnings:** " + Decimal(r.summary.warnings) + " \U{26A0}\U{FE0F}" + "\n" + (
      "- **Critical:** " + Decimal(r.summary.critical) + " \U{1F534}" + "\n" + (
      "" + "\n"
      )))))))))))))
  {
    var s := r.summary;
    UnlinesOf14(
      Title(r), "",
      "**Environment:** " + r.environment + "  ",
      "**Namespace:** " + r.namespace + "  ",
      "**Timestamp:** " + r.timestamp,
      "", SummaryHeading, "",
      "- **Health Score:** " + Decimal(s.healthScore) + "%",
      "- **Total Pods:** " + Decimal(s.totalPods),
      "- **Healthy:** " + Decimal(s.healthy) + " \U{2705}",
      "- **Warnings:** " + Decimal(s.warnings) + " \U{26A0}\U{FE0F}",
      "- **Critical:** " + Decimal(s.critical) + " \U{1F534}",
      "");
  }

  lemma UnlinesOf14(l0: string, l1: string, l2: string, l3: string, l4: string, l5: string, l6: string, l7: string, l8: string, l9: string, l10: string, l11: string, l12: string, l13: string)
    ensures Unlines([l0, l1, l2, l3, l4, l5, l6, l7, l8, l9, l10, l11, l12, l13]) ==
      l0 + "\n" + (l1 + "\n" + (l2 + "\n" + (l3 + "\n" + (l4 + "\n" + (l5 + "\n" + (l6 + "\n" + (
      l7 + "\n" + (l8 + "\n" + (l9 + "\n" + (l10 + "\n" + (l11 + "\n" + (l12 + "\n" + (l13 + "\n"
      )))))))))))))
  {
    assert [l0, l1, l2, l3, l4, l5, l6, l7, l8, l9, l10, l11, l12, l13] == [l0] + ([l1] + ([l2] + ([l3] + ([l4] + ([l5] + ([l6] + ([l7] + ([l8] + ([l9] + ([l10] + ([l11] + ([l12] + ([l13])))))))))))));
    assert [l13] + [] == [l13];
    assert l13 + "\n" + "" == l13 + "\n";
    UnlinesCons(l13, []);
    UnlinesCons(l12, [l13]);
    UnlinesCons(l11, [l12] + ([l13]));
    UnlinesCons(l10, [l11] + ([l12] + ([l13])));
    UnlinesCons(l9, [l10] + ([l11] + ([l12] + ([l13]))));
    UnlinesCons(l8, [l9] + ([l10] + ([l11] + ([l12] + ([l13])))));
    UnlinesCons(l7, [l8] + ([l9] + ([l10] + ([l11] + ([l12] + ([l13]))))));
    UnlinesCons(l6, [l7] + ([l8] + ([l9] + ([l10] + ([l11] + ([l12] + ([l13])))))));
    UnlinesCons(l5, [l6] + ([l7] + ([l8] + ([l9] + ([l10] + ([l11] + ([l12] + ([l13]))))))));
    UnlinesCons(l4, [l5] + ([l6] + ([l7] + ([l8] + ([l9] + ([l10] + ([l11] + ([l12] + ([l13])))))))));
    UnlinesCons(l3, [l4] + ([l5] + ([l6] + ([l7] + ([l8] + ([l9] + ([l10] + ([l11] + ([l12] + ([l13]))))))))));
    UnlinesCons(l2, [l3] + ([l4] + ([l5] + ([l6] + ([l7] + ([l8] + ([l9] + ([l10] + ([l11] + ([l12] + ([l13])))))))))));
    UnlinesCons(l1, [l2] + ([l3] + ([l4] + ([l5] + ([l6] + ([l7] + ([l8] + ([l9] + ([l10] + ([l11] + ([l12] + ([l13]))))))))))));
    UnlinesCons(l0, [l1] + ([l2] + ([l3] + ([l4] + ([l5] + ([l6] + ([l7] + ([l8] + ([l9] + ([l10] + ([l11] + ([l12] + ([l13])))))))))))));
  }

  lemma UnlinesCons(l: string, ls: seq<string>)
    ensures Unlines([l] + ls) == l + "\n" + Unlines(ls)
  {
    assert ([l] + ls)[1..] == ls;
  }

  lemma UnlinesOf2(l0: string, l1: string)
    ensures Unlines([l0, l1]) == l0 + "\n" + (l1 + "\n")
  {
    assert [l0, l1] == [l0] + [l1];
    assert [l1] + [] == [l1];
    assert l1 + "\n" + "" == l1 + "\n";
    UnlinesCons(l1, []);
    UnlinesCons(l0, [l1]);
  }

  lemma UnlinesOf3(l0: string, l1: string, l2: string)
    ensures Unlines([l0, l1, l2]) == l0 + "\n" + (l1 + "\n" + (l2 + "\n"))
  {
    assert [l0, l1, l2] == [l0] + [l1, l2];
    UnlinesOf2(l1, l2);
    UnlinesCons(l0, [l1, l2]);
  }

  lemma UnlinesOf4(l0: string, l1: string, l2: string, l3: string)
    ensures Unlines([l0, l1, l2, l3]) == l0 + "\n" + (l1 + "\n" + (l2 + "\n" + (l3 + "\n")))
  {
    assert [l0, l1, l2, l3] == [l0] + [l1, l2, l3];
    UnlinesOf3(l1, l2, l3);
    UnlinesCons(l0, [l1, l2, l3]);
  }

  /** The text of one pod's lines as the loop body writes it. */
  lemma EntryText(e: PodEntry)
    ensures Unlines(EntryLines(e)) ==
      ("- **" + e.name + "**" + "\n")
      + ("  - Status: `" + e.status + "`" + "\n")
      + ("  - Restarts: " + Decimal(e.restarts) + "\n" + "\n")
  {
    UnlinesOf4("- **" + e.name + "**", "  - Status: `" + e.status + "`", "  - Restarts: " + Decimal(e.restarts), "");
    assert "" + "\n" == "\n";
  }

  /** One more pod appends its four lines after the text written so far. */
  lemma EntryAppended(text: string, es: seq<PodEntry>, i: nat)
    requires i < |es|
    ensures text + Unlines(EntriesLines(es[..i + 1])) ==
      text + Unlines(EntriesLines(es[..i]))
      + ("- **" + es[i].name + "**" + "\n")
      + ("  - Status: `" + es[i].status + "`" + "\n")
      + ("  - Restarts: " + Decimal(es[i].restarts) + "\n" + "\n")
  {
    assert es[..i + 1][..i] == es[..i];
    UnlinesAppend(EntriesLines(es[..i]), EntryLines(es[i]));
    EntryText(es[i]);
  }

  lemma SectionText(heading: string, es: seq<PodEntry>)
    requires es != []
    ensures Unlines(SectionLines(heading, es)) == (heading + "\n" + "\n") + Unlines(EntriesLines(es))
  {
    UnlinesAppend([heading, ""], EntriesLines(es));
    UnlinesOf2(heading, "");
    assert "" + "\n" == "\n";
  }

  /** The closing block as format_markdown_message writes it. */
  lemma FooterText(r: Report)
    ensures Unlines(FooterLines(r)) ==
      HealthyHeading + "\n" + "\n" + Decimal(r.summary.healthy) + " pods running normally" + "\n"
  {
    UnlinesOf3(HealthyHeading, "", Decimal(r.summary.healthy) + " pods running normally");
    assert "" + "\n" == "\n";
  }

  /** The whole message is the opening block, the two sections and the
      closing block, one after the other. */
  lemma MessageText(r: Report)
    ensures Message(r) ==
      Unlines(HeaderLines(r))
      + Unlines(SectionLines(CriticalHeading, r.criticalIssues))
      + Unlines(SectionLines(WarningsHeading, r.warnings))
      + Unlines(FooterLines(r))
  {
    var h, c, w, f := HeaderLines(r), SectionLines(CriticalHeading, r.criticalIssues),
      SectionLines(WarningsHeading, r.warnings), FooterLines(r);
    UnlinesAppend(h + c + w, f);
    UnlinesAppend(h + c, w);
    UnlinesAppend(h, c);
  }


  // ------------------------------------------------------------ properties

  /** The pods of a list sit four lines apart, each block in list order. */
  lemma {:induction false} EntriesLinesAt(es: seq<PodEntry>, k: nat, j: nat)
    requires k < |es| && j < 4
    ensures EntriesLines(es)[4 * k + j] == EntryLines(es[k])[j]
  {
    var n := |es| - 1;
    var front := es[..n];
    assert EntriesLines(es) == EntriesLines(front) + EntryLines(es[n]);
    if k < n {
      EntriesLinesAt(front, k, j);
      assert front[k] == es[k];
    }
  }

  /** Number of lines a section takes. */
  function SectionSize(es: seq<PodEntry>): nat {
    if es == [] then 0 else 2 + 4 * |es|
  }

  lemma SectionLinesSize(heading: string, es: seq<PodEntry>)
    ensures |SectionLines(heading, es)| == SectionSize(es)
  {
  }

  /** Where everything stands in the message: the title first, the critical
      section right after the 14 lines of the opening block, the warnings
      section after it, the healthy count last, and the k-th pod of a section
      in the four lines starting 2 + 4k lines into it. */
  lemma MessageLayout(r: Report)
    ensures var ls := MessageLines(r);
      var c, w := r.criticalIssues, r.warnings;
      && |ls| == 17 + SectionSize(c) + SectionSize(w)
      && ls[0] == "# " + HealthIcon(r.summary.healthScore) + " QA Environment Status Report"
      && ls[8] == "- **Health Score:** " + Decimal(r.summary.healthScore) + "%"
      && (c != [] ==> ls[14] == CriticalHeading)
      && (w != [] ==> ls[14 + SectionSize(c)] == WarningsHeading)
      && ls[14 + SectionSize(c) + SectionSize(w)] == HealthyHeading
      && ls[|ls| - 1] == Decimal(r.summary.healthy) + " pods running normally"
  {
    var c, w := r.criticalIssues, r.warnings;
    var h, cs, ws, f := HeaderLines(r), SectionLines(CriticalHeading, c),
      SectionLines(WarningsHeading, w), FooterLines(r);
    SectionLinesSize(CriticalHeading, c);
    SectionLinesSize(WarningsHeading, w);
    var ls := MessageLines(r);
    assert ls == h + cs + ws + f;
    assert ls[0] == h[0] && ls[8] == h[8];
    if c != [] {
      assert ls[14] == cs[0];
    }
    if w != [] {
      assert ls[14 + |cs|] == ws[0];
    }
    assert ls[14 + |cs| + |ws|] == f[0];
    assert ls[|ls| - 1] == f[2];
  }

  /** The k-th listed critical issue is rendered as its name, status and
      restart count. */
  lemma CriticalEntryAt(r: Report, k: nat, j: nat)
    requires k < |r.criticalIssues| && j < 4
    ensures MessageLines(r)[16 + 4 * k + j] == EntryLines(r.criticalIssues[k])[j]
  {
    var c := r.criticalIssues;
    var h, sc := HeaderLines(r), SectionLines(CriticalHeading, c);
    var sw, f := SectionLines(WarningsHeading, r.warnings), FooterLines(r);
    SectionLinesSize(CriticalHeading, c);
    EntriesLinesAt(c, k, j);
    var i := 16 + 4 * k + j;
    assert sc[i - 14] == EntriesLines(c)[4 * k + j];
    assert MessageLines(r) == ((h + sc) + sw) + f;
    assert (h + sc)[i] == sc[i - 14];
  }

  /** The k-th listed warning is rendered as its name, status and restart
      count, after the critical section. */
  lemma WarningEntryAt(r: Report, k: nat, j: nat)
    requires k < |r.warnings| && j < 4
    ensures MessageLines(r)[16 + SectionSize(r.criticalIssues) + 4 * k + j] == EntryLines(r.warnings[k])[j]
  {
    var w := r.warnings;
    var h, sc := HeaderLines(r), SectionLines(CriticalHeading, r.criticalIssues);
    var sw, f := SectionLines(WarningsHeading, w), FooterLines(r);
    SectionLinesSize(CriticalHeading, r.criticalIssues);
    SectionLinesSize(WarningsHeading, w);
    EntriesLinesAt(w, k, j);
    var i := 16 + |sc| + 4 * k + j;
    var hc := h + sc;
    assert sw[i - |hc|] == EntriesLines(w)[4 * k + j];
    assert MessageLines(r) == (hc + sw) + f;
    assert (hc + sw)[i] == sw[i - |hc|];
  }

  /** No line of a pod block is a section heading. */
  lemma {:induction false} NoHeadingInEntries(es: seq<PodEntry>, heading: string)
    requires |heading| > 0 && heading[0] == '#'
    ensures heading !in EntriesLines(es)
  {
    if es != [] {
      var n := |es| - 1;
      NoHeadingInEntries(es[..n], heading);
      var e := es[n];
      assert ("- **" + e.name + "**")[0] == '-';
      assert ("  - Status: `" + e.status + "`")[0] == ' ';
      assert ("  - Restarts: " + Decimal(e.restarts))[0] == ' ';
    }
  }

  /** The heading of a section is in no line of the header: every header
      line starts differently or differs at the heading's fourth character. */
  lemma NoHeadingInHeader(r: Report, heading: string)
    requires heading == CriticalHeading || heading == WarningsHeading
    ensures heading !in HeaderLines(r)
  {
    var s := r.summary;
    assert heading[1] == '#' && heading[0] == '#';
    assert Title(r)[1] == ' ';
    assert ("**Environment:** " + r.environment + "  ")[0] == '*';
    assert ("**Namespace:** " + r.namespace + "  ")[0] == '*';
    assert ("**Timestamp:** " + r.timestamp)[0] == '*';
    assert ("- **Health Score:** " + Decimal(s.healthScore) + "%")[0] == '-';
    assert ("- **Total Pods:** " + Decimal(s.totalPods))[0] == '-';
    assert ("- **Healthy:** " + Decimal(s.healthy) + " \U{2705}")[0] == '-';
    assert ("- **Warnings:** " + Decimal(s.warnings) + " \U{26A0}\U{FE0F}")[0] == '-';
    assert ("- **Critical:** " + Decimal(s.critical) + " \U{1F534}")[0] == '-';
    assert SummaryHeading[3] != heading[3];
  }

  /** The heading of a section is in no line of the footer. */
  lemma NoHeadingInFooter(r: Report, heading: string)
    requires heading == CriticalHeading || heading == WarningsHeading
    ensures heading !in FooterLines(r)
  {
    assert heading[0] == '#';
    assert HealthyHeading[3] != heading[3];
    var n := Decimal(r.summary.healthy);
    assert (n + " pods running normally")[0] == n[0];
    assert IsDigit(n[0]);
  }

  /** A section holds a given heading exactly when it is that section's own
      heading and the list is not empty. */
  lemma HeadingInSection(heading: string, own: string, es: seq<PodEntry>)
    requires |heading| > 0 && heading[0] == '#'
    ensures heading in SectionLines(own, es) <==> es != [] && heading == own
  {
    NoHeadingInEntries(es, heading);
    if es != [] {
      assert SectionLines(own, es) == [own, ""] + EntriesLines(es);
    }
  }

  /** The critical section heading is shown exactly when there are critical
      issues to list. */
  lemma CriticalHeadingShown(r: Report)
    ensures CriticalHeading in MessageLines(r) <==> r.criticalIssues != []
  {
    var h, sc := HeaderLines(r), SectionLines(CriticalHeading, r.criticalIssues);
    var sw, f := SectionLines(WarningsHeading, r.warnings), FooterLines(r);
    assert MessageLines(r) == ((h + sc) + sw) + f;
    NoHeadingInHeader(r, CriticalHeading);
    NoHeadingInFooter(r, CriticalHeading);
    assert CriticalHeading != WarningsHeading by { assert CriticalHeading[3] != WarningsHeading[3]; }
    HeadingInSection(CriticalHeading, CriticalHeading, r.criticalIssues);
    HeadingInSection(CriticalHeading, WarningsHeading, r.warnings);
  }

  /** The warnings section heading is shown exactly when there are warnings
      to list. */
  lemma WarningsHeadingShown(r: Report)
    ensures WarningsHeading in MessageLines(r) <==> r.warnings != []
  {
    var h, sc := HeaderLines(r), SectionLines(CriticalHeading, r.criticalIssues);
    var sw, f := SectionLines(WarningsHeading, r.warnings), FooterLines(r);
    assert MessageLines(r) == ((h + sc) + sw) + f;
    NoHeadingInHeader(r, WarningsHeading);
    NoHeadingInFooter(r, WarningsHeading);
    assert CriticalHeading != WarningsHeading by { assert CriticalHeading[3] != WarningsHeading[3]; }
    HeadingInSection(WarningsHeading, CriticalHeading, r.criticalIssues);
    HeadingInSection(WarningsHeading, WarningsHeading, r.warnings);
  }

  // ------------------------------------------------------------ text and lines

  predicate NoNewline(s: string) {
    '\n' !in s
  }

  /** The report's own strings are free of newlines, so each of them stays on
      its line of the message. */
  predicate SingleLineFields(r: Report) {
    && NoNewline(r.environment) && NoNewline(r.namespace) && NoNewline(r.timestamp)
    && SingleLineEntries(r.criticalIssues) && SingleLineEntries(r.warnings)
  }

  predicate SingleLineEntries(es: seq<PodEntry>) {
    forall k :: 0 <= k < |es| ==> NoNewline(es[k].name) && NoNewline(es[k].status)
  }

  predicate SingleLines(ls: seq<string>) {
    forall j :: 0 <= j < |ls| ==> NoNewline(ls[j])
  }

  lemma SingleLinesAppend(a: seq<string>, b: seq<string>)
    requires SingleLines(a) && SingleLines(b)
    ensures SingleLines(a + b)
  {
    forall j | 0 <= j < |a + b| ensures NoNewline((a + b)[j]) {
      if j >= |a| {
        assert (a + b)[j] == b[j - |a|];
      }
    }
  }

  lemma DecimalNoNewline(n: nat)
    ensures NoNewline(Decimal(n))
  {
    var d := Decimal(n);
    forall k | 0 <= k < |d| ensures d[k] != '\n' {
      assert IsDigit(d[k]);
    }
  }

  lemma {:induction false} EntriesLinesNoNewline(es: seq<PodEntry>)
    requires SingleLineEntries(es)
    ensures SingleLines(EntriesLines(es))
  {
    if es != [] {
      var n := |es| - 1;
      EntriesLinesNoNewline(es[..n]);
      DecimalNoNewline(es[n].restarts);
      var last := EntryLines(es[n]);
      assert SingleLines(last) by {
        forall j | 0 <= j < |last| ensures NoNewline(last[j]) {
        }
      }
      SingleLinesAppend(EntriesLines(es[..n]), last);
    }
  }

  lemma SectionLinesNoNewline(heading: string, es: seq<PodEntry>)
    requires NoNewline(heading)
    requires SingleLineEntries(es)
    ensures SingleLines(SectionLines(heading, es))
  {
    EntriesLinesNoNewline(es);
    if es != [] {
      SingleLinesAppend([heading, ""], EntriesLines(es));
    }
  }

  lemma ConcatNoNewline(a: string, b: string)
    requires NoNewline(a) && NoNewline(b)
    ensures NoNewline(a + b)
  {
  }

  lemma HeaderFieldsNoNewline(r: Report)
    requires SingleLineFields(r)
    ensures NoNewline(Title(r)) && NoNewline(SummaryHeading)
    ensures NoNewline("**Environment:** " + r.environment + "  ")
    ensures NoNewline("**Namespace:** " + r.namespace + "  ")
    ensures NoNewline("**Timestamp:** " + r.timestamp)
  {
    ConcatNoNewline("# " + HealthIcon(r.summary.healthScore), " QA Environment Status Report");
    ConcatNoNewline("**Environment:** " + r.environment, "  ");
    ConcatNoNewline("**Namespace:** " + r.namespace, "  ");
    ConcatNoNewline("**Timestamp:** ", r.timestamp);
  }

  lemma SummaryCountsNoNewline(s: Summary)
    ensures NoNewline("- **Health Score:** " + Decimal(s.healthScore) + "%")
    ensures NoNewline("- **Total Pods:** " + Decimal(s.totalPods))
    ensures NoNewline("- **Healthy:** " + Decimal(s.healthy) + " \U{2705}")
    ensures NoNewline("- **Warnings:** " + Decimal(s.warnings) + " \U{26A0}\U{FE0F}")
    ensures NoNewline("- **Critical:** " + Decimal(s.critical) + " \U{1F534}")
  {
    DecimalNoNewline(s.healthScore);
    ConcatNoNewline("- **Health Score:** " + Decimal(s.healthScore), "%");
    DecimalNoNewline(s.totalPods);
    ConcatNoNewline("- **Total Pods:** ", Decimal(s.totalPods));
    DecimalNoNewline(s.healthy);
    ConcatNoNewline("- **Healthy:** " + Decimal(s.healthy), " \U{2705}");
    DecimalNoNewline(s.warnings);
    ConcatNoNewline("- **Warnings:** " + Decimal(s.warnings), " \U{26A0}\U{FE0F}");
    DecimalNoNewline(s.critical);
    ConcatNoNewline("- **Critical:** " + Decimal(s.critical), " \U{1F534}");
  }

  lemma HeaderLinesNoNewline(r: Report)
    requires SingleLineFields(r)
    ensures SingleLines(HeaderLines(r))
  {
    HeaderFieldsNoNewline(r);
    SummaryCountsNoNewline(r.summary);
    var ls := HeaderLines(r);
    forall j | 0 <= j < |ls| ensures NoNewline(ls[j]) {
    }
  }

  lemma HeadingsNoNewline()
    ensures NoNewline(CriticalHeading) && NoNewline(WarningsHeading) && NoNewline(HealthyHeading)
  {
  }

  lemma MessageLinesNoNewline(r: Report)
    requires SingleLineFields(r)
    ensures SingleLines(MessageLines(r))
  {
    HeadingsNoNewline();
    HeaderLinesNoNewline(r);
    SectionLinesNoNewline(CriticalHeading, r.criticalIssues);
    SectionLinesNoNewline(WarningsHeading, r.warnings);
    DecimalNoNewline(r.summary.healthy);
    var h, c, w, f := HeaderLines(r), SectionLines(CriticalHeading, r.criticalIssues),
      SectionLines(WarningsHeading, r.warnings), FooterLines(r);
    ConcatNoNewline(Decimal(r.summary.healthy), " pods running normally");
    assert SingleLines(f) by {
      forall j | 0 <= j < |f| ensures NoNewline(f[j]) {
      }
    }
    SingleLinesAppend(h, c);
    SingleLinesAppend(h + c, w);
    SingleLinesAppend(h + c + w, f);
  }

  /** Every line followed by a newline is the lines joined by newlines with
      an empty last part. */
  lemma {:induction false} UnlinesJoin(ls: seq<string>)
    ensures Join(ls + [""], '\n') == Unlines(ls)
  {
    if ls != [] {
      UnlinesJoin(ls[1..]);
      assert (ls + [""])[1..] == ls[1..] + [""];
    }
  }

  /** When the report's strings hold no newline, cutting the message at each
      newline gives back exactly its lines, and an empty part after the final
      newline. */
  lemma MessageSplit(r: Report)
    requires SingleLineFields(r)
    ensures Split(Message(r), '\n') == MessageLines(r) + [""]
  {
    var ls := MessageLines(r) + [""];
    MessageLinesNoNewline(r);
    assert forall j :: 0 <= j < |ls| ==> '\n' !in ls[j];
    UnlinesJoin(MessageLines(r));
    SplitJoin(ls, '\n');
  }
}
