/** The handful of Python string built-ins the reporter relies on:
    whitespace, strip(), split(sep), split(), substring search, isdigit()/int()
    and str() of a non-negative integer. Strings are sequences of Unicode
    scalar values, as Python's str is a sequence of code points. */
module Text {

  /** Python's str.isspace() on one character; str.split() and str.strip()
      both use this notion of whitespace. */
  predicate IsSpace(c: char) {
    var n := c as int;
    (9 <= n <= 13) || (28 <= n <= 32) || n == 0x85 || n == 0xA0 || n == 0x1680
    || (0x2000 <= n <= 0x200A) || n == 0x2028 || n == 0x2029 || n == 0x202F
    || n == 0x205F || n == 0x3000
  }

  predicate AllSpace(s: string) {
    forall k :: 0 <= k < |s| ==> IsSpace(s[k])
  }

  // ---------------------------------------------------------------- strip()

  /** Drops the leading whitespace of `s`. */
  function TrimStart(s: string): (r: string)
    ensures |r| <= |s| && r == s[|s| - |r|..]
    ensures AllSpace(s[..|s| - |r|])
    ensures r == [] || !IsSpace(r[0])
  {
    if s != [] && IsSpace(s[0]) then TrimStart(s[1..]) else s
  }

  /** Drops the trailing whitespace of `s`. */
  function TrimEnd(s: string): (r: string)
    ensures |r| <= |s| && r == s[..|r|]
    ensures AllSpace(s[|r|..])
    ensures r == [] || !IsSpace(r[|r| - 1])
  {
    if s != [] && IsSpace(s[|s| - 1]) then TrimEnd(s[..|s| - 1]) else s
  }

  /** `r` is `s[i..i + |r|]`, and everything of `s` around it is whitespace. */
  predicate TrimmedAt(s: string, r: string, i: nat) {
    i + |r| <= |s| && r == s[i..i + |r|] && AllSpace(s[..i]) && AllSpace(s[i + |r|..])
  }

  /** str.strip(): the middle of `s` once whitespace is removed at both ends. */
  function Strip(s: string): (r: string)
    ensures StrippedOf(s, r)
  {
    StripOfTrims(s);
    TrimStart(TrimEnd(s))
  }

  /** What str.strip() promises of its result `r`: a slice of `s` with only
      whitespace around it, no whitespace at either of its ends, and empty
      exactly when `s` is all whitespace. */
  ghost predicate StrippedOf(s: string, r: string) {
    && (exists i :: TrimmedAt(s, r, i))
    && (r == [] || (!IsSpace(r[0]) && !IsSpace(r[|r| - 1])))
    && (r == [] <==> AllSpace(s))
  }

  lemma StripOfTrims(s: string)
    ensures StrippedOf(s, TrimStart(TrimEnd(s)))
  {
    var e := TrimEnd(s);
    var r := TrimStart(e);
    var i := |e| - |r|;
    assert TrimmedAt(s, r, i) by { TrimsAt(s, e, r); }
    assert r == [] || (!IsSpace(r[0]) && !IsSpace(r[|r| - 1])) by { TrimsEnds(e, r); }
    StrippedAt(s, r, i);
  }

  /** A slice with only whitespace around it and none at its ends is what
      strip() returns. */
  lemma StrippedAt(s: string, r: string, i: nat)
    requires TrimmedAt(s, r, i)
    requires r == [] || (!IsSpace(r[0]) && !IsSpace(r[|r| - 1]))
    ensures StrippedOf(s, r)
  {
    TrimmedEmpty(s, r, i);
  }

  /** Trimming the end and then the start leaves a middle slice of `s`. */
  lemma TrimsAt(s: string, e: string, r: string)
    requires e == TrimEnd(s) && r == TrimStart(e)
    ensures TrimmedAt(s, r, |e| - |r|)
  {
    var i := |e| - |r|;
    assert r == s[i..i + |r|];
    assert s[..i] == e[..i];
    assert s[i + |r|..] == s[|e|..];
  }

  /** Neither end of the trimmed middle is whitespace. */
  lemma TrimsEnds(e: string, r: string)
    requires e == [] || !IsSpace(e[|e| - 1])
    requires r == TrimStart(e)
    ensures r == [] || (!IsSpace(r[0]) && !IsSpace(r[|r| - 1]))
  {
    if r != [] {
      assert r[|r| - 1] == e[|e| - 1];
    }
  }

  /** A trimmed middle is empty exactly when `s` is all whitespace. */
  lemma TrimmedEmpty(s: string, r: string, i: nat)
    requires TrimmedAt(s, r, i)
    requires r == [] || !IsSpace(r[0])
    ensures r == [] <==> AllSpace(s)
  {
    if r == [] {
      AllSpaceSplit(s, i, i);
    } else {
      assert s[i] == r[0];
    }
  }

  lemma AllSpaceSplit(s: string, i: nat, j: nat)
    requires i <= j <= |s|
    ensures AllSpace(s) <==> AllSpace(s[..i]) && AllSpace(s[i..j]) && AllSpace(s[j..])
  {
    if AllSpace(s[..i]) && AllSpace(s[i..j]) && AllSpace(s[j..]) {
      forall k | 0 <= k < |s| ensures IsSpace(s[k]) {
        if k < i { assert s[k] == s[..i][k]; }
        else if k < j { assert s[k] == s[i..j][k - i]; }
        else { assert s[k] == s[j..][k - j]; }
      }
    }
  }

  /** A string without whitespace at either end is its own strip(). */
  lemma {:induction false} StripTrimmed(s: string)
    requires s == [] || (!IsSpace(s[0]) && !IsSpace(s[|s| - 1]))
    ensures Strip(s) == s
  {
    assert TrimEnd(s) == s;
    assert TrimStart(s) == s;
  }

  // ----------------------------------------------------------- split(sep)

  /** Index of the first `c` in `s`, or |s| when there is none. */
  function IndexOf(s: string, c: char): (i: nat)
    ensures i <= |s|
    ensures i < |s| ==> s[i] == c
    ensures c !in s[..i]
  {
    if s == [] || s[0] == c then 0 else 1 + IndexOf(s[1..], c)
  }

  /** str.split(sep) with a one-character separator: always at least one
      part, and no part contains the separator. */
  function Split(s: string, sep: char): (parts: seq<string>)
    ensures |parts| >= 1
    ensures forall k :: 0 <= k < |parts| ==> sep !in parts[k]
    decreases |s|
  {
    var i := IndexOf(s, sep);
    if i == |s| then [s] else [s[..i]] + Split(s[i + 1..], sep)
  }

  /** sep.join(parts). */
  function Join(parts: seq<string>, sep: char): string {
    if parts == [] then ""
    else if |parts| == 1 then parts[0]
    else parts[0] + [sep] + Join(parts[1..], sep)
  }

  /** Joining the parts of a split gives the original string back. */
  lemma {:induction false} JoinSplit(s: string, sep: char)
    ensures Join(Split(s, sep), sep) == s
    decreases |s|
  {
    var i := IndexOf(s, sep);
    if i < |s| {
      var parts := Split(s, sep);
      var rest := Split(s[i + 1..], sep);
      assert parts == [s[..i]] + rest;
      assert parts[0] == s[..i] && parts[1..] == rest;
      JoinSplit(s[i + 1..], sep);
      assert Join(parts, sep) == s[..i] + [sep] + Join(rest, sep);
      assert s == s[..i] + [sep] + s[i + 1..];
    }
  }

  /** Splitting a join of separator-free parts gives the parts back. */
  lemma {:induction false} SplitJoin(parts: seq<string>, sep: char)
    requires |parts| >= 1
    requires forall k :: 0 <= k < |parts| ==> sep !in parts[k]
    ensures Split(Join(parts, sep), sep) == parts
  {
    var s := Join(parts, sep);
    var p := parts[0];
    if |parts| == 1 {
      assert IndexOf(p, sep) == |p| by { IndexOfAbsent(p, sep); }
    } else {
      var rest := Join(parts[1..], sep);
      assert s == p + [sep] + rest;
      IndexOfAfter(p, sep, rest);
      assert s[..|p|] == p && s[|p| + 1..] == rest;
      SplitJoin(parts[1..], sep);
    }
  }

  lemma {:induction false} IndexOfAbsent(s: string, c: char)
    requires c !in s
    ensures IndexOf(s, c) == |s|
  {
    if s != [] {
      IndexOfAbsent(s[1..], c);
    }
  }

  lemma {:induction false} IndexOfAfter(p: string, c: char, rest: string)
    requires c !in p
    ensures IndexOf(p + [c] + rest, c) == |p|
  {
    if p != [] {
      assert (p + [c] + rest)[1..] == p[1..] + [c] + rest;
      IndexOfAfter(p[1..], c, rest);
    }
  }

  // -------------------------------------------------------------- split()

  /** A token of str.split(): non-empty and free of whitespace. */
  predicate IsWord(w: string) {
    |w| > 0 && forall k :: 0 <= k < |w| ==> !IsSpace(w[k])
  }

  /** Length of the run of non-whitespace characters that starts `s`. */
  function WordLength(s: string): (n: nat)
    ensures n <= |s|
    ensures forall k :: 0 <= k < n ==> !IsSpace(s[k])
    ensures n < |s| ==> IsSpace(s[n])
  {
    if s == [] || IsSpace(s[0]) then 0 else 1 + WordLength(s[1..])
  }

  /** str.split() with no argument: the maximal whitespace-free runs of `s`,
      in order. */
  function Words(s: string): (ws: seq<string>)
    ensures forall k :: 0 <= k < |ws| ==> IsWord(ws[k])
    ensures ws == [] <==> AllSpace(s)
    decreases |s|
  {
    if s == [] then []
    else if IsSpace(s[0]) then Words(s[1..])
    else
      var n := WordLength(s);
      [s[..n]] + Words(s[n..])
  }

  /** Words separated by single spaces split back into those words. */
  lemma {:induction false} WordsJoin(ws: seq<string>)
    requires forall k :: 0 <= k < |ws| ==> IsWord(ws[k])
    ensures Words(Join(ws, ' ')) == ws
  {
    if ws != [] {
      var w := ws[0];
      var s := Join(ws, ' ');
      WordLengthOf(w, if |ws| == 1 then "" else [' '] + Join(ws[1..], ' '));
      if |ws| == 1 {
        assert s == w + "";
        assert s[|w|..] == "";
      } else {
        var rest := Join(ws[1..], ' ');
        assert s == w + ([' '] + rest);
        assert s[|w|..] == [' '] + rest;
        assert s[|w|..][1..] == rest;
        WordsJoin(ws[1..]);
      }
      assert s[..|w|] == w;
    }
  }

  lemma {:induction false} WordLengthOf(w: string, tail: string)
    requires IsWord(w)
    requires tail == [] || IsSpace(tail[0])
    ensures WordLength(w + tail) == |w|
  {
    if |w| > 1 {
      assert (w + tail)[1..] == w[1..] + tail;
      WordLengthOf(w[1..], tail);
    } else {
      assert (w + tail)[1..] == tail;
    }
  }

  /** A word followed by whitespace or by nothing is the first token, and the
      tokens of what follows come after it. */
  lemma WordsWordThen(w: string, s: string)
    requires IsWord(w)
    requires s == [] || IsSpace(s[0])
    ensures Words(w + s) == [w] + Words(s)
  {
    WordLengthOf(w, s);
    assert (w + s)[0] == w[0];
    assert (w + s)[..|w|] == w;
    assert (w + s)[|w|..] == s;
  }

  /** Leading whitespace of any length and kind yields no token. */
  lemma {:induction false} WordsSpaceFront(g: string, s: string)
    requires AllSpace(g)
    ensures Words(g + s) == Words(s)
  {
    if g != [] {
      assert (g + s)[0] == g[0];
      assert (g + s)[1..] == g[1..] + s;
      assert Words(g + s) == Words(g[1..] + s);
      WordsSpaceFront(g[1..], s);
    } else {
      assert g + s == s;
    }
  }

  /** A word, then a gap of any non-empty whitespace, then the rest: the word
      is the first token. Together with `Words("") == []` and
      `WordsSpaceFront` this pins `Words` down on every string. */
  lemma WordsWordGap(w: string, g: string, s: string)
    requires IsWord(w)
    requires g != [] && AllSpace(g)
    ensures Words(w + (g + s)) == [w] + Words(s)
  {
    WordsWordThen(w, g + s);
    WordsSpaceFront(g, s);
  }

  // ------------------------------------------------------------ substring

  predicate OccursAt(s: string, sub: string, i: nat) {
    i + |sub| <= |s| && s[i..i + |sub|] == sub
  }

  /** Python's `sub in s`. */
  function Contains(s: string, sub: string): (b: bool)
    ensures b <==> exists i :: OccursAt(s, sub, i)
  {
    if sub <= s then
      assert OccursAt(s, sub, 0);
      true
    else if s == [] then false
    else
      var b := Contains(s[1..], sub);
      assert forall i: nat :: OccursAt(s, sub, i + 1) <==> OccursAt(s[1..], sub, i);
      assert !OccursAt(s, sub, 0);
      assert forall i: nat :: OccursAt(s, sub, i) ==> i > 0 && OccursAt(s[1..], sub, i - 1);
      b
  }

  // -------------------------------------------------------------- numbers

  predicate IsDigit(c: char) {
    '0' <= c <= '9'
  }

  predicate AllDigits(s: string) {
    forall k :: 0 <= k < |s| ==> IsDigit(s[k])
  }

  /** str.isdigit(), restricted to the ASCII digits. */
  predicate IsDecimal(s: string) {
    |s| > 0 && AllDigits(s)
  }

  function Pow10(n: nat): (p: nat)
    ensures p >= 1
  {
    if n == 0 then 1 else 10 * Pow10(n - 1)
  }

  function DigitChar(d: nat): (c: char)
    requires d < 10
    ensures IsDigit(c)
  {
    ('0' as int + d) as char
  }

  /** int(s) for a string of ASCII digits. */
  function DecimalValue(s: string): (n: nat)
    requires AllDigits(s)
    ensures n < Pow10(|s|)
  {
    if s == [] then 0
    else DecimalValue(s[..|s| - 1]) * 10 + (s[|s| - 1] as int - '0' as int)
  }

  /** str(n) for a non-negative integer: decimal digits, no leading zero. */
  function Decimal(n: nat): (s: string)
    ensures IsDecimal(s)
    ensures s[0] == '0' ==> s == "0"
  {
    if n < 10 then [DigitChar(n)] else Decimal(n / 10) + [DigitChar(n % 10)]
  }

  /** int(str(n)) == n. */
  lemma {:induction false} DecimalValueOfDecimal(n: nat)
    ensures DecimalValue(Decimal(n)) == n
  {
    if n >= 10 {
      var s := Decimal(n);
      assert s[..|s| - 1] == Decimal(n / 10);
      DecimalValueOfDecimal(n / 10);
    }
  }

  /** str(int(s)) == s for a digit string with no superfluous leading zero. */
  lemma {:induction false} DecimalOfDecimalValue(s: string)
    requires IsDecimal(s)
    requires s[0] == '0' ==> s == "0"
    ensures Decimal(DecimalValue(s)) == s
  {
    var n := DecimalValue(s);
    if |s| > 1 {
      var f := s[..|s| - 1];
      assert f[0] == s[0];
      DecimalValuePositive(f);
      assert n / 10 == DecimalValue(f) && n % 10 == s[|s| - 1] as int - '0' as int;
      DecimalOfDecimalValue(f);
    }
  }

  lemma {:induction false} DecimalValuePositive(s: string)
    requires IsDecimal(s) && s[0] != '0'
    ensures DecimalValue(s) > 0
  {
    if |s| > 1 {
      DecimalValuePositive(s[..|s| - 1]);
    }
  }

  /** A leading zero does not change int(s): int("007") == 7. */
  lemma {:induction false} LeadingZero(s: string)
    requires AllDigits(s)
    ensures DecimalValue("0" + s) == DecimalValue(s)
  {
    if s != [] {
      assert ("0" + s)[..|s|] == "0" + s[..|s| - 1];
      LeadingZero(s[..|s| - 1]);
    }
  }
}
