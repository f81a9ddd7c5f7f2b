/** How a stale snapshot is blamed: the log tails of a dead engine are classified as a network
    outage (no strike, no restart) or as an engine crash. Lines are already lower-cased. */
module LogClassifier {
  import opened RealArithmetic

  /** One candidate log file: it could not be read, or these are its last lines. */
  datatype Tail = Unreadable | Lines(lines: seq<string>)
  datatype Verdict = NetworkOutage | EngineCrash
  datatype Thresholds = Thresholds(minConsecutive: int, minInterleaved: int, minRatio: real)

  const DEFAULTS := Thresholds(5, 5, 0.25)
  const TAIL_LINES := 20
  const AGGREGATE_MIN_MATCHES := 5
  const AGGREGATE_MIN_RATIO := 0.10

  const NETWORK_PATTERNS: seq<string> := [
    "temporary failure in name resolution", "failed to lookup address information",
    "http transport error", "connection refused", "dns error"]
  const CRASH_PATTERNS: seq<string> := ["panic", "assertion failed", "stack backtrace"]
  const AMBIGUOUS_PATTERNS: seq<string> := [
    "postgres", "pgconnection", "sqlx", "pg pool", "pool timed out", "db_pool", "disk full",
    "no space left", "out of memory", "killed (oom)", "watchdog timeout", "deadlock detected"]

  predicate Contains(line: string, pattern: string) {
    exists i :: 0 <= i <= |line| - |pattern| && pattern <= line[i..]
  }

  predicate HasAny(line: string, patterns: seq<string>) {
    exists p <- patterns :: Contains(line, p)
  }

  predicate IsNetwork(line: string) { HasAny(line, NETWORK_PATTERNS) }
  predicate IsCrash(line: string) { HasAny(line, CRASH_PATTERNS) }
  predicate IsAmbiguous(line: string) { HasAny(line, AMBIGUOUS_PATTERNS) }

  function CountMatches(lines: seq<string>): (n: nat)
    ensures n <= |lines|
  {
    if lines == [] then 0
    else CountMatches(lines[..|lines| - 1]) + if IsNetwork(lines[|lines| - 1]) then 1 else 0
  }

  /** Network lines at the very end. */
  function TrailingRun(lines: seq<string>): (n: nat)
    ensures n <= |lines|
  {
    if lines == [] || !IsNetwork(lines[|lines| - 1]) then 0 else 1 + TrailingRun(lines[..|lines| - 1])
  }

  function LongestRun(lines: seq<string>): (n: nat) {
    if lines == [] then 0
    else
      var before := LongestRun(lines[..|lines| - 1]);
      if TrailingRun(lines) > before then TrailingRun(lines) else before
  }

  method LongestConsecutiveRun(lines: seq<string>) returns (longest: nat)
    ensures longest == LongestRun(lines)
  {
    longest := 0;
    var current := 0;
    for i := 0 to |lines|
      invariant longest == LongestRun(lines[..i])
      invariant current == TrailingRun(lines[..i])
    {
      assert lines[..i + 1][..i] == lines[..i];
      if IsNetwork(lines[i]) {
        current := current + 1;
        if current > longest { longest := current; }
      } else {
        current := 0;
      }
    }
    assert lines[..|lines|] == lines;
  }

  /** Enough network lines, and a large enough share of all lines. */
  predicate Interleaved(lines: seq<string>, minMatches: int, minRatio: real) {
    |lines| > 0 && CountMatches(lines) >= minMatches
    && CountMatches(lines) as real / |lines| as real >= minRatio
  }

  predicate FileShowsOutage(t: Tail, c: Thresholds) {
    t.Lines? && |t.lines| > 0
    && (LongestRun(t.lines) >= c.minConsecutive || Interleaved(t.lines, c.minInterleaved, c.minRatio))
  }

  function Merged(tails: seq<Tail>): (lines: seq<string>) {
    if tails == [] then []
    else Merged(tails[..|tails| - 1]) + if tails[|tails| - 1].Lines? then tails[|tails| - 1].lines else []
  }

  ghost predicate Clean(t: Tail) {
    t.Lines? ==> forall l <- t.lines :: !IsCrash(l) && !IsAmbiguous(l)
  }

  ghost predicate AllClean(tails: seq<Tail>) { forall t <- tails :: Clean(t) }
  ghost predicate AnyShows(tails: seq<Tail>, c: Thresholds) { exists t <- tails :: FileShowsOutage(t, c) }

  lemma ScanSplit(tails: seq<Tail>, i: nat)
    requires i < |tails|
    ensures tails[..i + 1] == tails[..i] + [tails[i]]
    ensures tails[i] in tails
  {
  }

  lemma CleanSnoc(tails: seq<Tail>, t: Tail)
    ensures AllClean(tails + [t]) <==> AllClean(tails) && Clean(t)
  {
    assert t in tails + [t] && forall x <- tails :: x in tails + [t];
  }

  lemma ShowsSnoc(tails: seq<Tail>, t: Tail, c: Thresholds)
    ensures AnyShows(tails + [t], c) <==> AnyShows(tails, c) || FileShowsOutage(t, c)
  {
    assert t in tails + [t] && forall x <- tails :: x in tails + [t];
  }

  lemma MergedSnoc(tails: seq<Tail>, t: Tail)
    ensures Merged(tails + [t]) == Merged(tails) + LinesOf(t)
  {
    assert (tails + [t])[..|tails + [t]| - 1] == tails;
  }

  lemma ScanStep(tails: seq<Tail>, i: nat, c: Thresholds)
    requires i < |tails|
    ensures AllClean(tails[..i + 1]) <==> AllClean(tails[..i]) && Clean(tails[i])
    ensures AnyShows(tails[..i + 1], c) <==> AnyShows(tails[..i], c) || FileShowsOutage(tails[i], c)
    ensures Merged(tails[..i + 1]) == Merged(tails[..i]) + LinesOf(tails[i])
    ensures AllClean(tails) ==> Clean(tails[i])
  {
    ScanSplit(tails, i);
    CleanSnoc(tails[..i], tails[i]);
    ShowsSnoc(tails[..i], tails[i], c);
    MergedSnoc(tails[..i], tails[i]);
  }

  /** What the classifier is meant to decide, without any scanning order. */
  ghost predicate IsOutage(tails: seq<Tail>, c: Thresholds) {
    && AllClean(tails)
    && (AnyShows(tails, c)
        || Interleaved(Merged(tails), AGGREGATE_MIN_MATCHES, AGGREGATE_MIN_RATIO))
  }

  /** The scan of the source: returns at the first crash token, remembers ambiguous tokens, skips
      gate (c) of a file that already passed gate (b), and merges what it could read. */
  method Classify(tails: seq<Tail>, c: Thresholds) returns (v: Verdict)
    ensures v == NetworkOutage <==> IsOutage(tails, c)
  {
    var sawOutage, sawAmbiguous, aggregate := false, false, [];
    for i := 0 to |tails|
      invariant aggregate == Merged(tails[..i])
      invariant sawOutage <==> AnyShows(tails[..i], c)
      invariant !sawAmbiguous <==> AllClean(tails[..i])
    {
      var t := tails[i];
      ScanStep(tails, i, c);
      if t.Unreadable? || t.lines == [] { continue; }
      aggregate := aggregate + t.lines;
      if exists l <- t.lines :: IsCrash(l) {
        assert !Clean(t);
        return EngineCrash;
      }
      if exists l <- t.lines :: IsAmbiguous(l) {
        assert !Clean(t);
        sawAmbiguous := true;
      }
      var run := LongestConsecutiveRun(t.lines);
      if run >= c.minConsecutive {
        sawOutage := true;
        continue;
      }
      if Interleaved(t.lines, c.minInterleaved, c.minRatio) {
        sawOutage := true;
      }
    }
    assert tails[..|tails|] == tails;
    if sawAmbiguous { return EngineCrash; }
    if sawOutage { return NetworkOutage; }
    if Interleaved(aggregate, AGGREGATE_MIN_MATCHES, AGGREGATE_MIN_RATIO) { return NetworkOutage; }
    return EngineCrash;
  }

  // ----- What the run length means -----

  ghost predicate RunAt(lines: seq<string>, start: nat, k: nat) {
    start + k <= |lines| && forall j :: start <= j < start + k ==> IsNetwork(lines[j])
  }

  ghost predicate EndsWithRun(lines: seq<string>, k: nat) {
    k <= |lines| && RunAt(lines, |lines| - k, k)
  }

  lemma {:induction false} TrailingRunIsMaximal(lines: seq<string>, k: nat)
    ensures EndsWithRun(lines, k) <==> k <= TrailingRun(lines)
  {
    if lines != [] && k > 0 {
      var init := lines[..|lines| - 1];
      TrailingRunIsMaximal(init, k - 1);
      if EndsWithRun(lines, k) {
        assert IsNetwork(lines[|lines| - 1]);
        assert EndsWithRun(init, k - 1);
      } else if k <= TrailingRun(lines) {
        assert EndsWithRun(init, k - 1);
        assert RunAt(lines, |lines| - k, k);
      }
    }
  }

  /** Gate (b) fires exactly when some window of k consecutive lines is all network errors. */
  lemma {:induction false} LongestRunMeaning(lines: seq<string>, k: nat)
    ensures LongestRun(lines) >= k <==> exists start: nat :: RunAt(lines, start, k)
  {
    TrailingRunIsMaximal(lines, k);
    if lines == [] {
      if k == 0 { assert RunAt(lines, 0, 0); }
    } else {
      var init := lines[..|lines| - 1];
      LongestRunMeaning(init, k);
      if LongestRun(lines) >= k && LongestRun(init) >= k {
        var s: nat :| RunAt(init, s, k);
        assert RunAt(lines, s, k);
      } else if LongestRun(lines) >= k {
        assert RunAt(lines, |lines| - k, k) by { assert EndsWithRun(lines, k); }
      }
      if s: nat :| RunAt(lines, s, k) {
        RunIsLast(lines, s, k);
      }
    }
  }

  lemma RunIsLast(lines: seq<string>, s: nat, k: nat)
    requires lines != [] && RunAt(lines, s, k)
    ensures RunAt(lines[..|lines| - 1], s, k) || EndsWithRun(lines, k)
  {
    var init := lines[..|lines| - 1];
    if s + k <= |init| { assert forall j :: s <= j < s + k ==> init[j] == lines[j]; }
  }

  // ----- The default thresholds in numbers -----

  lemma ShareExactly(part: nat, whole: nat, times: nat, ratio: real)
    requires whole > 0 && times > 0 && ratio * times as real == 1.0
    ensures part as real / whole as real >= ratio <==> part * times >= whole
  {
    var p, w, n := part as real, whole as real, times as real;
    var q := p / w;
    assert q * w == p;
    ProductSign(q - ratio, w * n);
    assert (q - ratio) * (w * n) == p * n - w;
    assert (part * times) as real == p * n;
  }

  /** A single log shows an outage on five network lines in a row, or on five anywhere that are a quarter of its
      lines. */
  lemma FileShowsExactly(t: Tail)
    ensures FileShowsOutage(t, DEFAULTS) <==>
      && t.Lines? && |t.lines| > 0
      && (LongestRun(t.lines) >= 5 || (CountMatches(t.lines) >= 5 && CountMatches(t.lines) * 4 >= |t.lines|))
  {
    if t.Lines? && |t.lines| > 0 { ShareExactly(CountMatches(t.lines), |t.lines|, 4, 0.25); }
  }

  /** At the default thresholds: no log holds a crash or ambiguous token, and one shows an outage alone or all together
      hold five network lines that are a tenth of their lines. */
  lemma OutageExactly(tails: seq<Tail>)
    ensures var lines := Merged(tails);
      IsOutage(tails, DEFAULTS) <==>
        && AllClean(tails)
        && (|| AnyShows(tails, DEFAULTS)
            || (|lines| > 0 && CountMatches(lines) >= 5 && CountMatches(lines) * 10 >= |lines|))
  {
    var lines := Merged(tails);
    if |lines| > 0 { ShareExactly(CountMatches(lines), |lines|, 10, 0.1); }
  }

  // ----- Order of candidates -----

  lemma {:induction false} CountOfConcat(a: seq<string>, b: seq<string>)
    ensures CountMatches(a + b) == CountMatches(a) + CountMatches(b)
  {
    if b == [] {
      assert a + b == a;
    } else {
      CountOfConcat(a, b[..|b| - 1]);
      assert (a + b)[..|a + b| - 1] == a + b[..|b| - 1];
    }
  }

  function LinesOf(t: Tail): seq<string> { if t.Lines? then t.lines else [] }

  /** A count over the tails, one by one. */
  function Total(tails: seq<Tail>, count: Tail -> nat): nat {
    if tails == [] then 0 else Total(tails[..|tails| - 1], count) + count(tails[|tails| - 1])
  }

  function SizeOf(t: Tail): nat { |LinesOf(t)| }
  function MatchesOf(t: Tail): nat { CountMatches(LinesOf(t)) }

  /** Length and matches of the merged tail are totals over the tails. */
  lemma {:induction false} MergedTotals(tails: seq<Tail>)
    ensures |Merged(tails)| == Total(tails, SizeOf) && CountMatches(Merged(tails)) == Total(tails, MatchesOf)
  {
    if tails != [] {
      var n := |tails| - 1;
      MergedTotals(tails[..n]);
      assert Merged(tails) == Merged(tails[..n]) + LinesOf(tails[n]);
      CountOfConcat(Merged(tails[..n]), LinesOf(tails[n]));
    }
  }

  lemma TotalSnoc(tails: seq<Tail>, t: Tail, count: Tail -> nat)
    ensures Total(tails + [t], count) == Total(tails, count) + count(t)
  {
    assert (tails + [t])[..|tails + [t]| - 1] == tails;
  }

  function Without<T>(s: seq<T>, k: nat): seq<T>
    requires k < |s|
  {
    s[..k] + s[k + 1..]
  }

  lemma {:induction false} TotalWithout(tails: seq<Tail>, k: nat, count: Tail -> nat)
    requires k < |tails|
    ensures Total(tails, count) == Total(Without(tails, k), count) + count(tails[k])
  {
    var n := |tails| - 1;
    var init := tails[..n];
    if k == n {
      assert Without(tails, k) == init;
    } else {
      TotalWithout(init, k, count);
      assert Without(tails, k) == Without(init, k) + [tails[n]];
      TotalSnoc(Without(init, k), tails[n], count);
    }
  }

  lemma {:induction false} TotalsIgnoreOrder(a: seq<Tail>, b: seq<Tail>, count: Tail -> nat)
    requires multiset(a) == multiset(b)
    ensures Total(a, count) == Total(b, count)
    decreases |a|
  {
    if a == [] {
      assert |b| == |multiset(b)| == 0;
    } else {
      var n := |a| - 1;
      assert a[n] in multiset(b);
      var k :| 0 <= k < |b| && b[k] == a[n];
      MultisetWithout(a, n);
      MultisetWithout(b, k);
      TotalsIgnoreOrder(Without(a, n), Without(b, k), count);
      TotalWithout(a, n, count);
      TotalWithout(b, k, count);
    }
  }

  lemma MultisetWithout<T>(s: seq<T>, k: nat)
    requires k < |s|
    ensures multiset(Without(s, k)) == multiset(s) - multiset{s[k]}
  {
    var before, after := s[..k], s[k + 1..];
    assert s == before + ([s[k]] + after);
  }

  lemma MergedTotalsIgnoreOrder(a: seq<Tail>, b: seq<Tail>)
    requires multiset(a) == multiset(b)
    ensures |Merged(a)| == |Merged(b)| && CountMatches(Merged(a)) == CountMatches(Merged(b))
  {
    MergedTotals(a);
    MergedTotals(b);
    TotalsIgnoreOrder(a, b, SizeOf);
    TotalsIgnoreOrder(a, b, MatchesOf);
  }

  /** The verdict does not depend on the order in which candidate logs are scanned. */
  lemma OrderIsIrrelevant(a: seq<Tail>, b: seq<Tail>, c: Thresholds)
    requires multiset(a) == multiset(b)
    ensures IsOutage(a, c) <==> IsOutage(b, c)
  {
    MergedTotalsIgnoreOrder(a, b);
    forall t ensures t in a <==> t in b {
      assert t in a <==> t in multiset(a);
      assert t in b <==> t in multiset(b);
    }
  }

  // ----- Gate (b) at the default thresholds -----

  lemma {:induction false} RunsAreCounted(lines: seq<string>)
    ensures TrailingRun(lines) <= CountMatches(lines)
    ensures LongestRun(lines) <= CountMatches(lines)
  {
    if lines != [] { RunsAreCounted(lines[..|lines| - 1]); }
  }

  /** With the default thresholds a tail has at most 20 lines, so gate (b) is implied by gate (c). */
  lemma ConsecutiveGateIsRedundant(t: Tail)
    requires t.Lines? ==> |t.lines| <= TAIL_LINES
    ensures FileShowsOutage(t, DEFAULTS) <==>
      t.Lines? && Interleaved(t.lines, DEFAULTS.minInterleaved, DEFAULTS.minRatio)
  {
    if t.Lines? && |t.lines| > 0 && LongestRun(t.lines) >= 5 {
      RunsAreCounted(t.lines);
      var m, n := CountMatches(t.lines) as real, |t.lines| as real;
      assert m / n >= 0.25 by {
        assert m >= 5.0 && n <= 20.0 && n > 0.0;
        RatioAtLeast(m, n);
      }
    }
  }

  lemma RatioAtLeast(m: real, n: real)
    requires m >= 5.0 && 0.0 < n <= 20.0
    ensures m / n >= 0.25
  {
    var q := m / n;
    assert q * n == m;
    assert (q - 0.25) * n == m - 0.25 * n >= 0.0;
  }
}
