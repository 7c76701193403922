/** parse_pods: the lines of `kubectl get pods --no-headers` output, read as
    rows and sorted into the critical, warning and healthy buckets. */
module Pods {
  import opened Text

  datatype Option<T> = None | Some(value: T)

  /** One usable line of the table: columns 0 to 3. */
  datatype StatusRecord = StatusRecord(name: string, ready: string, status: string, restarts: nat)

  /** What a bucket holds for a row; the ready column is not kept. */
  datatype PodEntry = PodEntry(name: string, status: string, restarts: nat)

  datatype Severity = Critical | Warning | Healthy

  const CrashLoop := "CrashLoopBackOff"
  const Running := "Running"
  /** More restarts than this make a row a warning. */
  const RestartLimit := 100

  /** The lines parse_pods walks over: the whole output stripped, then cut at
      each newline. */
  function PodLines(podOutput: string): (lines: seq<string>)
    ensures |lines| >= 1
    ensures forall k :: 0 <= k < |lines| ==> '\n' !in lines[k]
  {
    Split(Strip(podOutput), '\n')
  }

  /** The restart column: its integer value when every character is a digit,
      0 otherwise. */
  function RestartCount(token: string): (n: nat)
    ensures !IsDecimal(token) ==> n == 0
    ensures IsDecimal(token) && (token[0] == '0' ==> token == "0") ==> Decimal(n) == token
  {
    if IsDecimal(token) then
      if token[0] == '0' && token != "0" then DecimalValue(token)  // padded, such as "007"
      else (DecimalOfDecimalValue(token); DecimalValue(token))
    else 0
  }

  /** A line makes a row exactly when it has at least four tokens. */
  function ParseLine(line: string): (r: Option<StatusRecord>)
    ensures r.Some? <==> |Words(line)| >= 4
  {
    var parts := Words(line);
    if |parts| < 4 then None
    else Some(StatusRecord(parts[0], parts[1], parts[2], RestartCount(parts[3])))
  }

  /** The rule chain, first match wins: a crash loop is critical whatever the
      restart count, then a high restart count is a warning whatever the
      status, then an exact "Running" is healthy, and anything else is in no
      bucket. */
  function Classify(status: string, restarts: nat): (sev: Option<Severity>)
    ensures sev == Some(Critical) <==> Contains(status, CrashLoop)
    ensures sev == Some(Warning) <==> !Contains(status, CrashLoop) && restarts > RestartLimit
    ensures sev == Some(Healthy) <==>
              !Contains(status, CrashLoop) && restarts <= RestartLimit && status == Running
    ensures sev == None <==>
              !Contains(status, CrashLoop) && restarts <= RestartLimit && status != Running
  {
    if Contains(status, CrashLoop) then Some(Critical)
    else if restarts > RestartLimit then Some(Warning)
    else if status == Running then Some(Healthy)
    else None
  }

  function SeverityOf(r: StatusRecord): Option<Severity> {
    Classify(r.status, r.restarts)
  }

  function Entry(r: StatusRecord): PodEntry {
    PodEntry(r.name, r.status, r.restarts)
  }

  /** The rows of the lines that have at least four tokens, in line order. */
  function Rows(lines: seq<string>): (rows: seq<StatusRecord>)
    ensures |rows| <= |lines|
  {
    if lines == [] then []
    else
      var front := Rows(lines[..|lines| - 1]);
      match ParseLine(lines[|lines| - 1])
      case Some(r) => front + [r]
      case None => front
  }

  /** The entries of the rows that classify as `sev`, in row order. */
  function Bucket(rows: seq<StatusRecord>, sev: Severity): (b: seq<PodEntry>)
    ensures |b| <= |rows|
    ensures forall k :: 0 <= k < |b| ==> Classify(b[k].status, b[k].restarts) == Some(sev)
  {
    if rows == [] then []
    else
      var last := rows[|rows| - 1];
      Bucket(rows[..|rows| - 1], sev) + if SeverityOf(last) == Some(sev) then [Entry(last)] else []
  }

  /** The three buckets parse_pods returns for `podOutput`. */
  function Buckets(podOutput: string): (b: (seq<PodEntry>, seq<PodEntry>, seq<PodEntry>))
    ensures |b.0| + |b.1| + |b.2| <= |PodLines(podOutput)|
    ensures forall k :: 0 <= k < |b.0| ==> Classify(b.0[k].status, b.0[k].restarts) == Some(Critical)
    ensures forall k :: 0 <= k < |b.1| ==> Classify(b.1[k].status, b.1[k].restarts) == Some(Warning)
    ensures forall k :: 0 <= k < |b.2| ==> Classify(b.2[k].status, b.2[k].restarts) == Some(Healthy)
  {
    var rows := Rows(PodLines(podOutput));
    BucketsPartitionRows(rows);
    (Bucket(rows, Critical), Bucket(rows, Warning), Bucket(rows, Healthy))
  }

  /** parse_pods. It accepts every input and never fails. */
  method ParsePods(podOutput: string)
    returns (critical: seq<PodEntry>, warnings: seq<PodEntry>, healthy: seq<PodEntry>)
    ensures (critical, warnings, healthy) == Buckets(podOutput)
  {
    var lines := Split(Strip(podOutput), '\n');
    critical, warnings, healthy := SortLines(lines);
  }

  /** The loop of parse_pods: each line in turn is skipped or its entry is
      appended to the bucket its first matching rule names. */
  method SortLines(lines: seq<string>)
    returns (critical: seq<PodEntry>, warnings: seq<PodEntry>, healthy: seq<PodEntry>)
    ensures critical == Bucket(Rows(lines), Critical)
    ensures warnings == Bucket(Rows(lines), Warning)
    ensures healthy == Bucket(Rows(lines), Healthy)
  {
    critical, warnings, healthy := [], [], [];
    for i := 0 to |lines|
      invariant critical == Bucket(Rows(lines[..i]), Critical)
      invariant warnings == Bucket(Rows(lines[..i]), Warning)
      invariant healthy == Bucket(Rows(lines[..i]), Healthy)
    {
      assert lines[..i + 1] == lines[..i] + [lines[i]];
      ghost var rows := Rows(lines[..i]);
      RowsSnoc(lines[..i], lines[i]);
      var line := lines[i];
      if line == [] {
        assert Rows(lines[..i + 1]) == rows;
        continue;
      }
      var parts := Words(line);
      if |parts| < 4 {
        assert Rows(lines[..i + 1]) == rows;
        continue;
      }
      var name := parts[0];
      var ready := parts[1];  // read but never used
      var status := parts[2];
      var restarts := if IsDecimal(parts[3]) then DecimalValue(parts[3]) else 0;
      var entry := PodEntry(name, status, restarts);
      ghost var row := StatusRecord(name, ready, status, restarts);
      assert Rows(lines[..i + 1]) == rows + [row];
      BucketSnoc(rows, row, Critical);
      BucketSnoc(rows, row, Warning);
      BucketSnoc(rows, row, Healthy);
      assert Entry(row) == entry;
      if Contains(status, CrashLoop) {
        assert SeverityOf(row) == Some(Critical);
        critical := critical + [entry];
      } else if restarts > RestartLimit {
        assert SeverityOf(row) == Some(Warning);
        warnings := warnings + [entry];
      } else if status == Running {
        assert SeverityOf(row) == Some(Healthy);
        healthy := healthy + [entry];
      } else {
        assert SeverityOf(row) == None;
      }
    }
    assert lines[..|lines|] == lines;
  }

  lemma RowsSnoc(lines: seq<string>, line: string)
    ensures Rows(lines + [line]) ==
              Rows(lines) + if |Words(line)| >= 4 then [ParseLine(line).value] else []
  {
    assert (lines + [line])[..|lines|] == lines;
  }

  lemma BucketSnoc(rows: seq<StatusRecord>, row: StatusRecord, sev: Severity)
    ensures Bucket(rows + [row], sev) ==
              Bucket(rows, sev) + if SeverityOf(row) == Some(sev) then [Entry(row)] else []
  {
    assert (rows + [row])[..|rows|] == rows;
  }

  // ------------------------------------------------------------ properties

  lemma {:induction false} RowsAppend(a: seq<string>, b: seq<string>)
    ensures Rows(a + b) == Rows(a) + Rows(b)
    decreases |b|
  {
    if b != [] {
      var b' := b[..|b| - 1];
      assert (a + b)[..|a + b| - 1] == a + b';
      assert (a + b)[|a + b| - 1] == b[|b| - 1];
      RowsAppend(a, b');
    } else {
      assert a + b == a;
    }
  }

  lemma {:induction false} BucketAppend(a: seq<StatusRecord>, b: seq<StatusRecord>, sev: Severity)
    ensures Bucket(a + b, sev) == Bucket(a, sev) + Bucket(b, sev)
    decreases |b|
  {
    if b != [] {
      var b' := b[..|b| - 1];
      assert (a + b)[..|a + b| - 1] == a + b';
      assert (a + b)[|a + b| - 1] == b[|b| - 1];
      BucketAppend(a, b', sev);
    } else {
      assert a + b == a;
    }
  }

  /** A line with fewer than four tokens (a blank or whitespace-only line
      among them) adds no row, wherever it stands. */
  lemma {:induction false} ShortLineIgnored(before: seq<string>, line: string, after: seq<string>)
    requires |Words(line)| < 4
    ensures Rows(before + [line] + after) == Rows(before + after)
  {
    RowsAppend(before + [line], after);
    RowsAppend(before, [line]);
    assert [line][..0] == [];
    RowsAppend(before, after);
  }

  /** A line with a row adds exactly that row, between the rows of the
      lines before it and the rows of the lines after it. */
  lemma {:induction false} RowsInsert(before: seq<string>, line: string, after: seq<string>)
    requires ParseLine(line).Some?
    ensures Rows(before + [line] + after) == Rows(before) + [ParseLine(line).value] + Rows(after)
  {
    RowsAppend(before + [line], after);
    RowsAppend(before, [line]);
    assert [line][..0] == [];
  }

  lemma {:induction false} BucketSkip(a: seq<StatusRecord>, row: StatusRecord, b: seq<StatusRecord>, sev: Severity)
    requires SeverityOf(row) == None
    ensures Bucket(a + [row] + b, sev) == Bucket(a + b, sev)
  {
    BucketAppend(a + [row], b, sev);
    BucketSnoc(a, row, sev);
    BucketAppend(a, b, sev);
  }

  /** A line that parses but whose status classifies as nothing (neither a
      crash loop nor Running) adds no entry to any bucket, wherever it stands. */
  lemma {:induction false} UnclassifiedLineIgnored(before: seq<string>, line: string, after: seq<string>, sev: Severity)
    requires ParseLine(line).Some? && SeverityOf(ParseLine(line).value) == None
    ensures Bucket(Rows(before + [line] + after), sev) == Bucket(Rows(before + after), sev)
  {
    RowsInsert(before, line, after);
    RowsAppend(before, after);
    BucketSkip(Rows(before), ParseLine(line).value, Rows(after), sev);
  }

  /** The positions of the lines that make a row, in increasing order. */
  ghost function LinePositions(lines: seq<string>): seq<nat> {
    if lines == [] then []
    else
      var n := |lines| - 1;
      LinePositions(lines[..n]) + if ParseLine(lines[n]).Some? then [n] else []
  }

  /** The k-th row is what the line at the k-th position parses to. */
  lemma {:induction false} RowsComeFromLines(lines: seq<string>)
    ensures |LinePositions(lines)| == |Rows(lines)|
    ensures forall k :: 0 <= k < |LinePositions(lines)| ==>
              LinePositions(lines)[k] < |lines|
              && ParseLine(lines[LinePositions(lines)[k]]) == Some(Rows(lines)[k])
  {
    if lines != [] {
      var n := |lines| - 1;
      var front := lines[..n];
      RowsComeFromLines(front);
      var ps, rows := LinePositions(front), Rows(front);
      var ps', rows' := LinePositions(lines), Rows(lines);
      RowsSnoc(front, lines[n]);
      assert lines == front + [lines[n]];
      var hit := ParseLine(lines[n]).Some?;
      assert ps' == ps + (if hit then [n] else []);
      assert rows' == rows + (if hit then [ParseLine(lines[n]).value] else []);
      forall k | 0 <= k < |ps|
        ensures ps'[k] == ps[k] < n && lines[ps[k]] == front[ps[k]] && rows'[k] == rows[k]
      {
      }
    }
  }

  /** Rows keep the order of their lines, and no line that parses is missed. */
  lemma {:induction false} RowsKeepLineOrder(lines: seq<string>)
    ensures forall k :: 0 <= k < |LinePositions(lines)| ==> LinePositions(lines)[k] < |lines|
    ensures forall k, l :: 0 <= k < l < |LinePositions(lines)| ==>
              LinePositions(lines)[k] < LinePositions(lines)[l]
    ensures forall j :: 0 <= j < |lines| && ParseLine(lines[j]).Some? ==> j in LinePositions(lines)
  {
    if lines != [] {
      var n := |lines| - 1;
      var front := lines[..n];
      RowsKeepLineOrder(front);
      PositionsBelow(LinePositions(front), n);
      var ps := LinePositions(front);
      var ps' := LinePositions(lines);
      assert ps' == ps + (if ParseLine(lines[n]).Some? then [n] else []);
      forall j | 0 <= j < |lines| && ParseLine(lines[j]).Some?
        ensures j in ps'
      {
        if j < n {
          assert lines[j] == front[j];
          assert j in ps;
        } else {
          assert ps'[|ps|] == n;
        }
      }
    }
  }

  /** The positions of the rows that classify as `sev`, in increasing order. */
  ghost function RowPositions(rows: seq<StatusRecord>, sev: Severity): seq<nat> {
    if rows == [] then []
    else
      var n := |rows| - 1;
      RowPositions(rows[..n], sev) + if SeverityOf(rows[n]) == Some(sev) then [n] else []
  }

  /** The k-th entry of a bucket is the entry of the row at the k-th
      position, and that row classifies as the bucket's severity. */
  lemma {:induction false} BucketComesFromRows(rows: seq<StatusRecord>, sev: Severity)
    ensures |RowPositions(rows, sev)| == |Bucket(rows, sev)|
    ensures forall k :: 0 <= k < |RowPositions(rows, sev)| ==>
              var p := RowPositions(rows, sev)[k];
              p < |rows| && SeverityOf(rows[p]) == Some(sev) && Bucket(rows, sev)[k] == Entry(rows[p])
  {
    if rows != [] {
      var n := |rows| - 1;
      var front := rows[..n];
      BucketComesFromRows(front, sev);
      var ps, b := RowPositions(front, sev), Bucket(front, sev);
      var ps', b' := RowPositions(rows, sev), Bucket(rows, sev);
      var hit := SeverityOf(rows[n]) == Some(sev);
      assert ps' == ps + (if hit then [n] else []);
      assert b' == b + (if hit then [Entry(rows[n])] else []);
      forall k | 0 <= k < |ps|
        ensures ps'[k] == ps[k] < n && rows[ps[k]] == front[ps[k]] && b'[k] == b[k]
      {
      }
    }
  }

  /** A bucket keeps the order of its rows: the positions it takes its
      entries from are increasing. */
  lemma {:induction false} BucketKeepsRowOrder(rows: seq<StatusRecord>, sev: Severity)
    ensures forall k :: 0 <= k < |RowPositions(rows, sev)| ==> RowPositions(rows, sev)[k] < |rows|
    ensures forall k, l :: 0 <= k < l < |RowPositions(rows, sev)| ==>
              RowPositions(rows, sev)[k] < RowPositions(rows, sev)[l]
  {
    if rows != [] {
      var n := |rows| - 1;
      BucketKeepsRowOrder(rows[..n], sev);
      PositionsBelow(RowPositions(rows[..n], sev), n);
    }
  }

  /** No row of the bucket's severity is missed. With BucketComesFromRows and
      BucketKeepsRowOrder, a bucket is exactly the subsequence, in source
      order, of the entries of the rows of its severity. */
  lemma {:induction false} BucketMissesNoRow(rows: seq<StatusRecord>, sev: Severity)
    ensures forall j :: 0 <= j < |rows| && SeverityOf(rows[j]) == Some(sev) ==> j in RowPositions(rows, sev)
  {
    if rows != [] {
      var n := |rows| - 1;
      var front := rows[..n];
      BucketMissesNoRow(front, sev);
      var ps := RowPositions(front, sev);
      var ps' := RowPositions(rows, sev);
      assert ps' == ps + (if SeverityOf(rows[n]) == Some(sev) then [n] else []);
      forall j | 0 <= j < |rows| && SeverityOf(rows[j]) == Some(sev)
        ensures j in ps'
      {
        if j < n {
          assert rows[j] == front[j];
          assert j in ps;
        } else {
          assert ps'[|ps|] == n;
        }
      }
    }
  }

  /** Appending a position above every earlier one keeps positions increasing. */
  lemma PositionsBelow(ps: seq<nat>, n: nat)
    requires forall k :: 0 <= k < |ps| ==> ps[k] < n
    requires forall k, l :: 0 <= k < l < |ps| ==> ps[k] < ps[l]
    ensures forall k :: 0 <= k < |ps + [n]| ==> (ps + [n])[k] <= n
    ensures forall k, l :: 0 <= k < l < |ps + [n]| ==> (ps + [n])[k] < (ps + [n])[l]
  {
  }

  /** The number of rows that fall into none of the buckets. */
  function Unclassified(rows: seq<StatusRecord>): nat {
    if rows == [] then 0
    else Unclassified(rows[..|rows| - 1]) + if SeverityOf(rows[|rows| - 1]) == None then 1 else 0
  }

  /** Every row is counted exactly once: in one of the buckets or among the
      unclassified, so the buckets together hold at most as many entries as
      there are rows. */
  lemma {:induction false} BucketsPartitionRows(rows: seq<StatusRecord>)
    ensures |Bucket(rows, Critical)| + |Bucket(rows, Warning)| + |Bucket(rows, Healthy)|
              + Unclassified(rows) == |rows|
    ensures |Bucket(rows, Critical)| + |Bucket(rows, Warning)| + |Bucket(rows, Healthy)| <= |rows|
  {
    if rows != [] {
      BucketsPartitionRows(rows[..|rows| - 1]);
    }
  }

  /** No entry is in two buckets. */
  lemma BucketsDisjoint(rows: seq<StatusRecord>, e: PodEntry)
    ensures !(e in Bucket(rows, Critical) && e in Bucket(rows, Warning))
    ensures !(e in Bucket(rows, Critical) && e in Bucket(rows, Healthy))
    ensures !(e in Bucket(rows, Warning) && e in Bucket(rows, Healthy))
  {
  }

  /** Two lines whose tokens agree except in the ready column. */
  predicate SameButReady(line: string, line': string) {
    var w, w' := Words(line), Words(line');
    |w| == |w'| && forall j :: 0 <= j < |w| && j != 1 ==> w[j] == w'[j]
  }

  lemma SameButReadyParse(line: string, line': string)
    requires SameButReady(line, line')
    ensures ParseLine(line).Some? == ParseLine(line').Some?
    ensures ParseLine(line).Some? ==>
              Entry(ParseLine(line).value) == Entry(ParseLine(line').value)
              && SeverityOf(ParseLine(line).value) == SeverityOf(ParseLine(line').value)
  {
    var w, w' := Words(line), Words(line');
    if |w| >= 4 {
      assert w[0] == w'[0] && w[2] == w'[2] && w[3] == w'[3];
    }
  }

  /** parse_pods reads only the name, status and restart columns: two inputs
      whose lines agree token by token except in the ready column give the
      same buckets. */
  lemma {:induction false} ReadyColumnIgnored(lines: seq<string>, lines': seq<string>, sev: Severity)
    requires |lines| == |lines'|
    requires forall i :: 0 <= i < |lines| ==> SameButReady(lines[i], lines'[i])
    ensures Bucket(Rows(lines), sev) == Bucket(Rows(lines'), sev)
  {
    if lines != [] {
      var n := |lines| - 1;
      var front, front' := lines[..n], lines'[..n];
      ReadyColumnIgnored(front, front', sev);
      SameButReadyParse(lines[n], lines'[n]);
      if ParseLine(lines[n]).Some? {
        BucketSnoc(Rows(front), ParseLine(lines[n]).value, sev);
        BucketSnoc(Rows(front'), ParseLine(lines'[n]).value, sev);
      }
    }
  }

  /** The restart column reads back exactly the count `str()` writes. */
  lemma RestartCountOfDecimal(n: nat)
    ensures RestartCount(Decimal(n)) == n
  {
    DecimalValueOfDecimal(n);
  }

  /** A restart column with any character that is not a digit, such as
      `<none>` or `5(2m`, reads as 0. */
  lemma RestartCountNotDigits(token: string, k: nat)
    requires k < |token| && !IsDigit(token[k])
    ensures RestartCount(token) == 0
  {
  }

  /** `line` makes a row, and that row classifies as `sev`. */
  predicate LineIn(line: string, sev: Severity) {
    ParseLine(line).Some? && SeverityOf(ParseLine(line).value) == Some(sev)
  }

  /** When every line parses to a row of severity `sev`, that bucket holds one
      entry per line. */
  lemma {:induction false} EveryLineInBucket(lines: seq<string>, sev: Severity)
    requires forall i :: 0 <= i < |lines| ==> LineIn(lines[i], sev)
    ensures |Rows(lines)| == |lines| && |Bucket(Rows(lines), sev)| == |lines|
  {
    if lines != [] {
      var n := |lines| - 1;
      var front := lines[..n];
      assert forall i :: 0 <= i < |front| ==> front[i] == lines[i];
      EveryLineInBucket(front, sev);
      assert LineIn(lines[n], sev);
      var r := ParseLine(lines[n]).value;
      assert Rows(lines) == Rows(front) + [r];
      BucketSnoc(Rows(front), r, sev);
    }
  }

  /** A line of single-space-separated tokens parses to its first four
      columns. */
  /** A line as `kubectl` lays it out: optional leading whitespace, then name,
      ready, status and restarts separated by runs of any whitespace, then
      nothing or further columns (such as AGE) after more whitespace. It
      parses to its first four columns. */
  lemma ParseSpacedColumns(lead: string, name: string, g0: string, ready: string, g1: string,
                           status: string, g2: string, restarts: string, rest: string)
    requires AllSpace(lead)
    requires IsWord(name) && IsWord(ready) && IsWord(status) && IsWord(restarts)
    requires g0 != [] && AllSpace(g0) && g1 != [] && AllSpace(g1) && g2 != [] && AllSpace(g2)
    requires rest == [] || IsSpace(rest[0])
    ensures ParseLine(lead + name + g0 + ready + g1 + status + g2 + restarts + rest)
            == Some(StatusRecord(name, ready, status, RestartCount(restarts)))
  {
    var t3 := restarts + rest;
    var t2 := status + (g2 + t3);
    var t1 := ready + (g1 + t2);
    var t0 := name + (g0 + t1);
    assert lead + name + g0 + ready + g1 + status + g2 + restarts + rest == lead + t0;
    WordsWordThen(restarts, rest);
    WordsWordGap(status, g2, t3);
    WordsWordGap(ready, g1, t2);
    WordsWordGap(name, g0, t1);
    WordsSpaceFront(lead, t0);
    ParseOfWords(lead + t0, name, ready, status, restarts, Words(rest));
  }

  lemma ParseOfWords(line: string, name: string, ready: string, status: string, restarts: string,
                     more: seq<string>)
    requires Words(line) == [name] + ([ready] + ([status] + ([restarts] + more)))
    ensures ParseLine(line) == Some(StatusRecord(name, ready, status, RestartCount(restarts)))
  {
    var ws := Words(line);
    assert ws[0] == name && ws[1] == ready && ws[2] == status && ws[3] == restarts;
  }

  lemma ParseColumns(ws: seq<string>)
    requires |ws| >= 4
    requires forall k :: 0 <= k < |ws| ==> IsWord(ws[k])
    ensures ParseLine(Join(ws, ' ')) == Some(StatusRecord(ws[0], ws[1], ws[2], RestartCount(ws[3])))
  {
    WordsJoin(ws);
  }

  /** Output whose lines are joined by newlines, with no whitespace at either
      end, is cut back into exactly those lines. */
  lemma PodLinesOfJoin(lines: seq<string>)
    requires |lines| >= 1
    requires forall k :: 0 <= k < |lines| ==> '\n' !in lines[k]
    requires var s := Join(lines, '\n'); s == [] || (!IsSpace(s[0]) && !IsSpace(s[|s| - 1]))
    ensures PodLines(Join(lines, '\n')) == lines
  {
    StripTrimmed(Join(lines, '\n'));
    SplitJoin(lines, '\n');
  }

  /** Name and status of every row are whitespace-free tokens. */
  predicate WordRows(rows: seq<StatusRecord>) {
    forall k :: 0 <= k < |rows| ==> IsWord(rows[k].name) && IsWord(rows[k].status)
  }

  predicate WordEntries(es: seq<PodEntry>) {
    forall k :: 0 <= k < |es| ==> IsWord(es[k].name) && IsWord(es[k].status)
  }

  lemma {:induction false} RowsAreWords(lines: seq<string>)
    ensures WordRows(Rows(lines))
  {
    if lines != [] {
      var n := |lines| - 1;
      RowsAreWords(lines[..n]);
      RowsSnoc(lines[..n], lines[n]);
      assert lines[..n] + [lines[n]] == lines;
    }
  }

  lemma {:induction false} BucketIsWords(rows: seq<StatusRecord>, sev: Severity)
    requires WordRows(rows)
    ensures WordEntries(Bucket(rows, sev))
  {
    if rows != [] {
      var n := |rows| - 1;
      assert WordRows(rows[..n]) by {
        forall k | 0 <= k < n ensures IsWord(rows[..n][k].name) && IsWord(rows[..n][k].status) {
          assert rows[..n][k] == rows[k];
        }
      }
      BucketIsWords(rows[..n], sev);
    }
  }
}
