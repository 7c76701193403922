# QA namespace status reporter, modelled in Dafny

`status_reporter.py` produces a daily status report of the pods of a
Kubernetes namespace. This project models the core of that program:

- It reads the text of `kubectl get pods -n dev --no-headers`.
- It reads every line with at least four tokens as a row. Each row goes
  into the critical, the warning or the healthy bucket, whichever the first
  matching rule names. Shorter lines are skipped. Rows that match no rule,
  such as a `Pending` pod with few restarts, land in no bucket.
- It builds a report record. The record holds the summary counts, a health
  score, and the first ten critical issues and warnings.
- It renders that report as a Markdown message.

The project has five modules, one file each:

- `Text` (`text.dfy`) holds the Python string built-ins the program relies
  on:
  - `str.isspace` / `str.strip()`;
  - `str.split('\n')` and `str.split()`;
  - `in` on strings;
  - `str.isdigit()` / `int()`, restricted to the ASCII digits (see
    "Left out");
  - `str()` of a non-negative integer.

  Round trips are proved for these: split/join and `int(str(n)) == n`.
  `str.split()` is pinned down on every string: whitespace of any kind
  and length before a token is skipped, and a token ends at the first
  whitespace.
- `Pods` (`pods.dfy`) covers `parse_pods`:
  - the specification functions `PodLines`, `ParseLine`, `Classify`, `Rows`,
    `Bucket` and `Buckets`;
  - the method `ParsePods` and its loop `SortLines`, which grow the three
    lists the way the source does and are proved equal to the buckets;
  - lemmas about order, the partition of the rows, the ignored ready column,
    and lines that fall into no bucket.
- `Reports` (`report.dfy`) covers the summary part of `generate_report`:
  totals, the health score, the top-10 cut, and the constant namespace and
  environment.
- `Markdown` (`markdown.dfy`) covers `format_markdown_message`:
  - The message is specified as a list of lines, each followed by a newline.
  - The method `FormatMarkdownMessage` grows the string piece by piece like
    the source, with a loop per issue section, and is proved equal to that
    specification.
  - Lemmas say where each part stands in the message and when a section
    heading appears.
- `Pipeline` (`pipeline.dfy`) ties parsing, the report and rendering
  together. It has lemmas about the whole program, and example runs stated
  for any pod names: a three-pod table, an empty table, fifteen crash loops
  and a Pending pod.

In the source, the time of the run comes from `datetime.utcnow().isoformat()`.
Here it is a string parameter (`isoNow`), and the report's timestamp is
`isoNow + "Z"`.

## Model

| member | source | states |
|---|---|---|
| Pods.ParsePods | status_reporter.py:26-53 | parse_pods returns exactly the three buckets of the stripped output cut at newlines, for every input; it never fails (the one exception, `int()` of over 4300 digits, is under "Left out") |
| Pods.Buckets | status_reporter.py:53 | the three returned lists together hold at most one entry per line, and each entry classifies as its list's severity |
| Pods.SortLines | status_reporter.py:34-51 | the loop over the lines: each bucket it builds is the sequence of the entries of the rows of that severity, in line order |
| Pods.PodLines | status_reporter.py:28 | the lines walked over are at least one, and none holds a newline |
| Pods.RestartCount | status_reporter.py:44 | a column that is not all digits reads as 0; a digit string without a superfluous leading zero reads as the number whose `str()` it is |
| Pods.ParseLine | status_reporter.py:37-44 | a line yields a row exactly when `line.split()` has at least four tokens (this also covers the empty-line skip) |
| Pods.Classify | status_reporter.py:46-51 | first matching rule wins: critical exactly when the status contains `CrashLoopBackOff`; warning exactly when it does not and restarts exceed 100; healthy exactly when neither holds and the status is exactly `Running`; no bucket otherwise |
| Pods.SeverityOf | status_reporter.py:46-51 | a row's severity is `Classify` of its status and restart count; the name and ready columns play no part (see `ReadyColumnIgnored`) |
| Pods.Entry | status_reporter.py:47-51 | the dictionary appended to a bucket keeps the name, status and restarts and drops the ready column; `RowsAreWords` and `BucketComesFromRows` state what it holds |
| Pods.Rows | status_reporter.py:34-39 | there are never more rows than lines |
| Pods.Bucket | status_reporter.py:46-51 | a bucket is never longer than the rows, and each of its entries classifies as the bucket's severity |
| Pods.RowsSnoc | status_reporter.py:34-39 | one more line adds its row exactly when it has at least four tokens |
| Pods.BucketSnoc | status_reporter.py:46-51 | one more row appends its entry to exactly the bucket its severity names |
| Pods.RowsAppend | status_reporter.py:34-39 | the rows of two tables one after the other are the rows of each, concatenated |
| Pods.BucketAppend | status_reporter.py:46-51 | buckets of concatenated rows are the concatenated buckets |
| Pods.ShortLineIgnored | status_reporter.py:35-39 | a line with fewer than four tokens (blank lines among them) adds no row, wherever it stands |
| Pods.RowsInsert | status_reporter.py:34-44 | a line that parses adds exactly its row, between the rows before and after it |
| Pods.BucketSkip | status_reporter.py:46-51 | a row of no severity changes no bucket, wherever it stands |
| Pods.UnclassifiedLineIgnored | status_reporter.py:46-51 | a line whose status is neither a crash loop nor `Running` and whose restarts are at most 100 leaves every bucket as if it were absent |
| Pods.RowsComeFromLines | status_reporter.py:34-44 | the k-th row is what the line at its recorded position parses to |
| Pods.RowsKeepLineOrder | status_reporter.py:34-44 | row positions increase, and no line that parses is missed |
| Pods.BucketComesFromRows | status_reporter.py:46-51 | the k-th entry of a bucket is the entry of the row at the k-th position, and that row classifies as the bucket's severity |
| Pods.BucketKeepsRowOrder | status_reporter.py:46-51 | bucket entries keep the order of their rows |
| Pods.BucketMissesNoRow | status_reporter.py:46-51 | every row of the bucket's severity is in the bucket |
| Pods.BucketsPartitionRows | status_reporter.py:46-53 | every row is counted exactly once, in one bucket or among the unclassified ones |
| Pods.BucketsDisjoint | status_reporter.py:46-51 | no entry is in two buckets |
| Pods.SameButReadyParse | status_reporter.py:41-44 | lines equal except in the ready column parse alike and classify alike |
| Pods.ReadyColumnIgnored | status_reporter.py:42 | the ready column is read but never used: changing it changes no bucket |
| Pods.EveryLineInBucket | status_reporter.py:34-51 | when every line parses to a row of one severity, that bucket has one entry per line |
| Pods.RestartCountOfDecimal | status_reporter.py:44 | the restart column reads back exactly the count written in decimal |
| Pods.RestartCountNotDigits | status_reporter.py:44 | a restart column with any non-digit character reads as 0 |
| Pods.ParseColumns | status_reporter.py:37-44 | single-space-separated tokens parse to their first four columns |
| Pods.ParseSpacedColumns | status_reporter.py:37-44 | a line with optional leading whitespace, name, ready, status and restarts separated by any non-empty whitespace, and then nothing or more columns (such as AGE) after whitespace, parses to its first four columns |
| Pods.ParseOfWords | status_reporter.py:41-44 | a line whose first four tokens are given parses to those columns |
| Pods.PodLinesOfJoin | status_reporter.py:28 | newline-free lines with non-blank outer ends, joined by newlines, come back as those lines |
| Pods.RowsAreWords | status_reporter.py:41-43 | every row's name and status are whitespace-free tokens |
| Pods.BucketIsWords | status_reporter.py:47-51 | the same holds for every bucket entry |
| Reports.HealthScore | status_reporter.py:61 | the percentage of healthy pods, rounded down: score·total ≤ healthy·100 < (score+1)·total; at most 100; 100 exactly when every pod is healthy; 0 when nothing is classified or nothing is healthy |
| Reports.ScoreBounds | status_reporter.py:61 | the floor-division bounds behind the health score |
| Reports.Top | status_reporter.py:74-75 | `[:10]`: a prefix of the bucket, of length min(n, 10) |
| Reports.BuildReport | status_reporter.py:60-77 | the totals are the full bucket sizes; the issue lists are prefixes of at most 10 entries, whole when the bucket is shorter; the score is bounded and 100 exactly when every pod is healthy; namespace `dev`, environment `QA`, the given timestamp |
| Reports.ReportOf | status_reporter.py:57-77 | the report of the parsed buckets is stamped `isoNow + "Z"` and counts at most one pod per output line |
| Reports.GenerateReport | status_reporter.py:55-79 | generate_report is the report of the parsed buckets, stamped `isoNow + "Z"` |
| Reports.TotalCountsClassifiedRows | status_reporter.py:60 | the total counts the classified rows; the rows it leaves out are exactly the unclassified ones |
| Reports.CrashLoopsTruncated | status_reporter.py:60-74 | with n crash-looping rows the summary counts all n, the report lists min(n, 10), and the health score is 0 |
| Markdown.HealthIcon | status_reporter.py:87-92 | green exactly when the score is ≥ 95, yellow exactly when it is 80..94, red exactly below 80 |
| Markdown.Title | status_reporter.py:94 | the title is a level-one Markdown heading (`# `); `MessageLayout` gives its full text |
| Markdown.HeaderLines | status_reporter.py:94-108 | the 14 lines of the opening block; `HeaderText` proves their text is the source's f-string |
| Markdown.EntryLines | status_reporter.py:114-116 | the four lines of one pod; `EntryText` proves them equal to the loop body's three appends |
| Markdown.EntriesLines | status_reporter.py:113-116 | four lines per listed pod |
| Markdown.SectionLines | status_reporter.py:110-124 | heading, blank line and pods, or nothing for an empty list; `SectionText` and `SectionLinesSize` state this |
| Markdown.FooterLines | status_reporter.py:127 | the healthy heading, a blank line and the healthy count; `FooterText` states its text |
| Markdown.MessageLines | status_reporter.py:94-127 | header, critical section, warnings section and footer, in that order; `MessageLayout` says where each part stands |
| Markdown.Message | status_reporter.py:81-129 | each line followed by a newline; `FormatMarkdownMessage` builds exactly this text and `MessageSplit` reads it back into its lines |
| Markdown.FormatMarkdownMessage | status_reporter.py:81-129 | the string built up piece by piece is the message: the header lines, each non-empty issue section, and the healthy footer, each line ending in a newline |
| Markdown.AppendSection | status_reporter.py:110-124 | a section adds nothing for an empty list, otherwise its heading, a blank line and every pod |
| Markdown.AppendEntries | status_reporter.py:113-116 | the loop appends each pod's name, status and restart lines and a blank line, in list order |
| Markdown.UnlinesAppend | status_reporter.py:94-129 | appending texts of lines is the text of the appended lines |
| Markdown.HeaderText | status_reporter.py:94-108 | the opening block is exactly the source's f-string, with two trailing spaces after the environment and namespace |
| Markdown.EntryText | status_reporter.py:114-116 | one pod's text is the three appends of the loop body |
| Markdown.EntryAppended | status_reporter.py:113-116 | one more pod extends the text by exactly those three appends |
| Markdown.SectionText | status_reporter.py:111-116 | a non-empty section's text is its heading, a blank line, then the pods |
| Markdown.FooterText | status_reporter.py:127 | the closing block is the healthy heading, a blank line and `N pods running normally` |
| Markdown.MessageText | status_reporter.py:94-129 | the message is the header, the critical section, the warnings section and the footer, in that order |
| Markdown.EntriesLinesAt | status_reporter.py:113-116 | pod k's four lines are lines 4k..4k+3 of its section's pod lines |
| Markdown.SectionLinesSize | status_reporter.py:110-124 | a section takes 0 lines for an empty list, else 2 + 4n |
| Markdown.MessageLayout | status_reporter.py:94-127 | the message has 17 lines plus the sections; it starts with the icon title; line 8 is the health score; the critical heading follows the 14-line header; the warnings heading follows that section; the healthy count is last |
| Markdown.CriticalEntryAt | status_reporter.py:111-116 | the k-th listed critical issue occupies lines 16+4k..19+4k of the message |
| Markdown.WarningEntryAt | status_reporter.py:119-124 | the k-th listed warning follows the critical section in the same way |
| Markdown.NoHeadingInEntries | status_reporter.py:114-116 | no pod line is a section heading |
| Markdown.NoHeadingInHeader | status_reporter.py:94-108 | no header line is an issue-section heading |
| Markdown.NoHeadingInFooter | status_reporter.py:127 | no footer line is an issue-section heading |
| Markdown.HeadingInSection | status_reporter.py:110-124 | a section holds a given heading exactly when the list is non-empty and the heading is the section's own |
| Markdown.CriticalHeadingShown | status_reporter.py:111-112 | the critical heading is in the message if and only if there are critical issues |
| Markdown.WarningsHeadingShown | status_reporter.py:119-120 | the warnings heading is in the message if and only if there are warnings |
| Markdown.DecimalNoNewline | status_reporter.py:102-106 | the text of a number has no newline |
| Markdown.EntriesLinesNoNewline | status_reporter.py:113-116 | pod lines of newline-free names and statuses have no newline |
| Markdown.SectionLinesNoNewline | status_reporter.py:110-124 | the same for a whole section |
| Markdown.HeaderFieldsNoNewline | status_reporter.py:94-100 | the title, environment, namespace and timestamp lines have no newline when the fields have none |
| Markdown.SummaryCountsNoNewline | status_reporter.py:102-106 | the five summary lines have no newline |
| Markdown.HeaderLinesNoNewline | status_reporter.py:94-108 | no header line holds a newline |
| Markdown.HeadingsNoNewline | status_reporter.py:112 | the section headings have no newline |
| Markdown.MessageLinesNoNewline | status_reporter.py:94-127 | no message line holds a newline when the report's strings hold none |
| Markdown.UnlinesJoin | status_reporter.py:94-129 | lines each followed by a newline are the lines joined by newlines, plus an empty last part |
| Markdown.MessageSplit | status_reporter.py:81-129 | reading the message back line by line gives exactly its lines and an empty last part |
| Pipeline.WordNoNewline | status_reporter.py:37 | a token of `split()` holds no newline |
| Pipeline.WordEntriesSingleLine | status_reporter.py:41-47 | entries made of tokens are newline-free |
| Pipeline.TopSingleLine | status_reporter.py:74-75 | cutting a list to ten keeps it newline-free |
| Pipeline.IssuesSingleLine | status_reporter.py:74-75 | listed issues are newline-free |
| Pipeline.StampSingleLine | status_reporter.py:64-66 | the timestamp, namespace and environment are newline-free |
| Pipeline.ReportSingleLine | status_reporter.py:26-79 | for any table, a report stamped with a newline-free time keeps every field on one line |
| Pipeline.RenderedLines | status_reporter.py:26-129 | for any table, the rendered message read back line by line is exactly the lines of its report |
| Pipeline.TableLineStartsAndEnds | status_reporter.py:28 | an example table line is non-empty and newline-free, with non-blank ends |
| Pipeline.ParseTableLine | status_reporter.py:37-44 | an example table line parses back to its four columns |
| Pipeline.BucketsOfThree | status_reporter.py:46-51 | a healthy, a crash-looping and a high-restart row land one per bucket |
| Pipeline.TokensOfExample | status_reporter.py:44 | the example tokens are words, and `0`, `5`, `150` read as 0, 5, 150 |
| Pipeline.ClassesOfExample | status_reporter.py:46-51 | Running/0 is healthy, CrashLoopBackOff/5 is critical, Running/150 is a warning |
| Pipeline.ThreePodsRows | status_reporter.py:28-44 | the three-pod table gives its three rows |
| Pipeline.ScenarioThreePods | status_reporter.py:26-53 | each of the three pods lands in its own bucket with the right name, status and restarts |
| Pipeline.ScenarioThreePodsReport | status_reporter.py:60-72 | the three-pod report counts 3 pods, 1 of each kind, with health score 33 |
| Pipeline.OneOfEach | status_reporter.py:60-72 | one entry per bucket gives the summary (3, 1, 1, 1, 33) |
| Pipeline.ScenarioEmpty | status_reporter.py:26-77 | empty or whitespace-only output gives empty buckets and a report of zeros |
| Pipeline.BlankTableHasNoRows | status_reporter.py:28-39 | whitespace-only output yields no row |
| Pipeline.ScenarioEmptyMessage | status_reporter.py:87-127 | its message has the red icon and `0%`, and neither issue section |
| Pipeline.ScenarioManyCrashLoops | status_reporter.py:60-74 | fifteen crash-looping pods are all counted, but only the first ten are listed |
| Pipeline.PendingUnclassified | status_reporter.py:46-51 | a Pending pod with 0 restarts is in no bucket |
| Pipeline.ScenarioPending | status_reporter.py:46-77 | inserting a Pending pod anywhere in the table leaves the report unchanged |
| Text.IsSpace | status_reporter.py:28-37 | the characters `str.isspace()` accepts, the whitespace of both `strip()` and `split()`; `WordsSpaceFront` and `StrippedOf` rely on it |
| Text.Strip | status_reporter.py:28 | `str.strip()`: a slice of the input with only whitespace around it, with non-blank ends, and empty exactly when the input is all whitespace (`StrippedOf`) |
| Text.StripOfTrims | status_reporter.py:28 | trimming the end, then the start, meets everything `StrippedOf` asks |
| Text.TrimStart | status_reporter.py:28 | drops exactly the leading whitespace |
| Text.TrimEnd | status_reporter.py:28 | drops exactly the trailing whitespace |
| Text.TrimsAt | status_reporter.py:28 | the trimmed middle is a slice with whitespace around it |
| Text.TrimsEnds | status_reporter.py:28 | neither end of the trimmed middle is whitespace |
| Text.StrippedAt | status_reporter.py:28 | a slice with whitespace only around it and none at its ends meets everything `StrippedOf` asks |
| Text.TrimmedEmpty | status_reporter.py:28 | the trimmed middle is empty exactly when the input is all whitespace |
| Text.StripTrimmed | status_reporter.py:28 | a string with non-blank ends is its own strip |
| Text.IndexOf | status_reporter.py:28 | the first separator position, with no separator before it |
| Text.Split | status_reporter.py:28 | `split('\n')` gives at least one part, and no part contains the separator |
| Text.JoinSplit | status_reporter.py:28 | joining the parts of a split gives the string back |
| Text.SplitJoin | status_reporter.py:28 | splitting a join of separator-free parts gives the parts back |
| Text.WordLength | status_reporter.py:37 | the maximal non-whitespace run at the start |
| Text.Words | status_reporter.py:37 | `split()` gives whitespace-free, non-empty tokens, and none exactly when the line is all whitespace; with `WordsWordThen` and `WordsSpaceFront` its result is fixed on every string |
| Text.WordsWordThen | status_reporter.py:37 | a token followed by whitespace or by the end is the first token, and the tokens of the rest follow it |
| Text.WordsSpaceFront | status_reporter.py:37 | leading whitespace of any kind and length yields no token |
| Text.WordsWordGap | status_reporter.py:37 | a token, any non-empty run of whitespace and a rest give the token followed by the rest's tokens |
| Text.WordsJoin | status_reporter.py:37 | tokens joined by single spaces split back into the same tokens |
| Text.Contains | status_reporter.py:46 | `sub in s` holds exactly when `sub` occurs at some index of `s` |
| Text.IsDecimal | status_reporter.py:44 | `str.isdigit()` on ASCII text: non-empty and all digits (narrower than Python, see "Left out") |
| Text.DecimalValue | status_reporter.py:44 | `int()` of n digits is below 10^n |
| Text.Decimal | status_reporter.py:102-116 | `str(n)` is digits with no leading zero unless it is `0` |
| Text.DecimalValueOfDecimal | status_reporter.py:44 | `int(str(n)) == n` |
| Text.DecimalOfDecimalValue | status_reporter.py:44 | `str(int(s)) == s` for digit strings without a superfluous leading zero |
| Text.LeadingZero | status_reporter.py:44 | a leading zero does not change `int()`: `007` reads as 7 |

## Left out

- `get_pod_status` (running `kubectl`) is not modelled. Its output is the
  `podOutput` parameter. Its error branch would put the text
  `Error getting pods: …` there, and that text is then parsed like any
  table.
- `send_to_rabbitmq`, `main`, the console output and the exit code are not
  modelled: network I/O, environment variables and process exit.
- `datetime.utcnow().isoformat()` is not modelled. It becomes the string
  parameter `isoNow`; its format is not modelled.
- Reports.HealthScore: computes `healthy * 100 / total` exactly. The source
  computes `int(healthy / total * 100)` in floating point, and that can
  come out one lower. For example, 29 of 100 gives 28.999999999999996,
  which truncates to 28. Floating point is not modelled.
- Pods.ParsePods: reads a digit string of any length. CPython 3.11 and
  later (and the security releases of 3.7 to 3.10) raise ValueError in
  `int()` for a string of more than 4300 digits: the integer string
  conversion limit. parse_pods would then fail. A `kubectl` restart count
  is never that long.
- Text.IsDecimal: accepts only the ASCII digits. Python's `str.isdigit()`
  also accepts other Unicode digits. Some of them, such as superscripts,
  make `int()` raise. The `kubectl` restart column is ASCII.
- The report is a record (`Report`); the model does not keep it as a JSON
  dictionary. Its keys and nesting follow the source's dictionary.
- Pipeline scenarios: the example tables have symbolic pod names and ready
  columns. The statuses and restart counts are concrete. Fully literal
  tables are not stated.
