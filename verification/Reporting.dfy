/** summarize(): what the difference of two snapshots says about the records between them. */
module Reporting {
  import opened Arithmetic
  import opened Timebase
  import opened PeriodStats
  import opened ControlLoop

  /** std_us is the square root of `variance`; the root itself is not modelled. Moments are exact reals. */
  datatype Report = Report(
    count: int, elapsedUs: int, overruns: int, clamps: int, meanUs: real, variance: real,
    minNs: int, maxNs: int, maxLatenessNs: int, stale: bool)

  function Summarize(prev: Snapshot, cur: Snapshot, expectedWindow: int): Report {
    var count := (cur.count - prev.count) % TWO_64;
    var r := Report(count, cur.sumUs - prev.sumUs,
                    (cur.overruns - prev.overruns) % TWO_64, (cur.clamps - prev.clamps) % TWO_64, 0.0, 0.0,
                    cur.minNs, cur.maxNs, cur.maxLatenessNs, cur.window != expectedWindow);
    if count == 0 then r else
    var n := count as real;
    var mean := (cur.sumUs - prev.sumUs) as real / n;
    var sumSq := (cur.sumSqUs2 - prev.sumSqUs2) % TWO_64;
    var variance := if count >= 2 then sumSq as real / n - mean * mean else 0.0;
    r.(meanUs := mean, variance := if variance > 0.0 then variance else 0.0)
  }

  function Rounded(e: Entry): int {
    NsToUsRounded(e.sample.periodNs)
  }

  /** Sums over a log split at any point. */
  lemma {:induction false} SumsSplit(log: seq<Entry>, p: nat, c: nat)
    requires p <= c <= |log|
    ensures SumUs(log[..c]) == SumUs(log[..p]) + SumUs(log[p..c])
    ensures SumSq(log[..c]) == SumSq(log[..p]) + SumSq(log[p..c])
    ensures Overruns(log[..c]) == Overruns(log[..p]) + Overruns(log[p..c])
    ensures Clamps(log[..c]) == Clamps(log[..p]) + Clamps(log[p..c])
    decreases c
  {
    hide Square, NsToUsRounded;
    if p < c {
      SumsSplit(log, p, c - 1);
      assert log[..c][..c - 1] == log[..c - 1];
      assert log[p..c][..c - 1 - p] == log[p..c - 1];
    }
  }

  lemma FlagsBounded(log: seq<Entry>)
    ensures Overruns(log) <= |log| && Clamps(log) <= |log|
  {
  }

  lemma ModDifference(a: nat, b: nat)
    requires a <= b < a + TWO_64
    ensures (b % TWO_64 - a % TWO_64) % TWO_64 == b - a
  {
  }

  /** The counters of a report are those of the records between its two snapshots, exactly, although
      the squared sum wraps at 2^64: only the window's own squared sum has to fit. */
  lemma ReportIsExact(log: seq<Entry>, p: nat, c: nat, expectedWindow: int)
    requires p <= c <= |log| < TWO_64 && SumSq(log[p..c]) < TWO_64
    ensures var prev, cur := Fold(log[..p]), Fold(log[..c]);
            var r := Summarize(prev, cur, expectedWindow);
            && r.count == c - p
            && r.elapsedUs == SumUs(log[p..c])
            && r.overruns == Overruns(log[p..c])
            && r.clamps == Clamps(log[p..c])
            && (cur.sumSqUs2 - prev.sumSqUs2) % TWO_64 == SumSq(log[p..c])
  {
    hide Square, NsToUsRounded, Fold, SumSq, SumUs, Overruns, Clamps;
    FoldCounters(log[..p]);
    FoldCounters(log[..c]);
    SumsSplit(log, p, c);
    FlagsBounded(log[p..c]);
    ModDifference(p, c);
    ModDifference(SumSq(log[..p]), SumSq(log[..c]));
    ModDifference(Overruns(log[..p]), Overruns(log[..c]));
    ModDifference(Clamps(log[..p]), Clamps(log[..c]));
  }

  // ----- elapsed time -----

  function PeriodsOf(log: seq<Entry>): seq<CycleSample> {
    seq(|log|, i requires 0 <= i < |log| => log[i].sample)
  }

  /** Rounding each period costs at most half a microsecond per cycle, and never accumulates bias
      beyond that. */
  lemma {:induction false} RoundingError(log: seq<Entry>)
    ensures -500 * |log| <= 1000 * SumUs(log) - SumPeriods(PeriodsOf(log)) <= 500 * |log|
  {
    hide NsToUsRounded;
    if log != [] {
      var n := |log| - 1;
      RoundingError(log[..n]);
      assert PeriodsOf(log)[..n] == PeriodsOf(log[..n]);
    }
  }

  /** For the records of a real run: the elapsed time of records p to c is within half a microsecond
      per counted cycle of the raw-clock time between wake-up p and wake-up c. */
  lemma ElapsedMatchesClock(log: seq<Entry>, start: TimeSpec, wakes: seq<TimeSpec>, period: int, p: nat, c: nat)
    requires period > 0 && |log| == |wakes| && p <= c <= |log|
    requires PeriodsOf(log) == Samples(start, wakes, period)
    ensures var span := ToNs(WakeBefore(start, wakes, c)) - ToNs(WakeBefore(start, wakes, p));
            -500 * (c - p) <= 1000 * SumUs(log[p..c]) - span <= 500 * (c - p)
  {
    hide After, Samples, NsToUsRounded, SumUs;
    RoundingError(log[p..c]);
    assert PeriodsOf(log[p..c]) == PeriodsOf(log)[p..c];
    PeriodsTelescope(start, wakes, period, p, c);
  }

  // ----- moments -----

  /** Sum of squared distances of the rounded periods from x. */
  function Spread(log: seq<Entry>, x: int): nat {
    if log == [] then 0 else Spread(log[..|log| - 1], x) + Square(Rounded(log[|log| - 1]) - x)
  }

  /** n times the squared sum less the square of the sum: n squared times the population variance. */
  function Scatter(log: seq<Entry>): int {
    |log| * SumSq(log) - SumUs(log) * SumUs(log)
  }

  lemma SquareIsProduct(x: int)
    ensures Square(x) == x * x
  {
  }

  lemma SquareOfDifference(a: int, x: int)
    ensures Square(a - x) == Square(a) - 2 * (x * a) + x * x
  {
    SquareIsProduct(a);
    SquareIsProduct(a - x);
  }

  lemma {:induction false} SpreadExpands(log: seq<Entry>, x: int)
    ensures Spread(log, x) == SumSq(log) - 2 * (x * SumUs(log)) + |log| * (x * x)
  {
    hide Square, NsToUsRounded;
    if log != [] {
      var n := |log| - 1;
      var a := Rounded(log[n]);
      SpreadExpands(log[..n], x);
      SquareOfDifference(a, x);
      assert x * (SumUs(log[..n]) + a) == x * SumUs(log[..n]) + x * a;
      assert (n + 1) * (x * x) == n * (x * x) + x * x;
    }
  }

  lemma ScatterAlgebra(n: int, s1: int, s2: int, a: int)
    ensures (n + 1) * (s2 + a * a) - (s1 + a) * (s1 + a) == n * s2 - s1 * s1 + (s2 - 2 * (a * s1) + n * (a * a))
  {
  }

  lemma ScatterGrows(log: seq<Entry>)
    requires log != []
    ensures Scatter(log) == Scatter(log[..|log| - 1]) + Spread(log[..|log| - 1], Rounded(log[|log| - 1]))
  {
    hide Square, NsToUsRounded, Spread;
    var n := |log| - 1;
    var a := Rounded(log[n]);
    SpreadExpands(log[..n], a);
    SquareIsProduct(a);
    ScatterAlgebra(n, SumUs(log[..n]), SumSq(log[..n]), a);
  }

  lemma {:induction false} SpreadZero(log: seq<Entry>, x: int)
    ensures Spread(log, x) == 0 <==> forall e :: e in log ==> Rounded(e) == x
  {
    if log != [] {
      var n := |log| - 1;
      SpreadZero(log[..n], x);
      SquareZero(Rounded(log[n]) - x);
      assert log == log[..n] + [log[n]];
      hide Square, Rounded;
      assert Spread(log, x) == 0 <==> Spread(log[..n], x) == 0 && Rounded(log[n]) == x;
    }
  }

  lemma SquareZero(x: int)
    ensures Square(x) == 0 <==> x == 0
  {
    var a := Abs(x);
    if a != 0 {
      assert a * a >= a;
    }
  }

  ghost predicate AllRoundAlike(log: seq<Entry>) {
    forall e, f :: e in log && f in log ==> Rounded(e) == Rounded(f)
  }

  /** The variance a report computes is never negative before its clamp, and is zero exactly when all
      counted periods round to the same microsecond. */
  lemma {:induction false} ScatterIsVariance(log: seq<Entry>)
    ensures Scatter(log) >= 0
    ensures Scatter(log) == 0 <==> AllRoundAlike(log)
  {
    hide Square, Rounded, Spread, Scatter;
    if log == [] {
      EmptyScatter();
    } else {
      var n := |log| - 1;
      var front, last := log[..n], log[n];
      ScatterIsVariance(front);
      ScatterGrows(log);
      SpreadZero(front, Rounded(last));
      assert log == front + [last];
      assert AllRoundAlike(log) <==> AllRoundAlike(front) && forall e :: e in front ==> Rounded(e) == Rounded(last);
    }
  }

  lemma EmptyScatter()
    ensures Scatter([]) == 0
  {
  }

  lemma DivisionClears(a: real, n: real)
    requires n > 0.0
    ensures (a / n) * n == a
  {
  }

  lemma VarianceAlgebra(q: real, m: real, n: real, s2: real, s1: real)
    requires n > 0.0 && q * n == s2 && m * n == s1
    ensures (q - m * m) * (n * n) == n * s2 - s1 * s1
  {
    assert (q - m * m) * (n * n) == (q * n) * n - (m * n) * (m * n);
  }

  lemma ProductSign(a: real, b: real)
    requires b > 0.0
    ensures a * b >= 0.0 ==> a >= 0.0
    ensures a * b == 0.0 <==> a == 0.0
  {
  }

  /** A report's moments are those of the given records: mean times n is their sum, the variance is
      Scatter / n^2, and it vanishes exactly when all of them round alike. */
  ghost predicate HasMoments(r: Report, counted: seq<Entry>) {
    var n := |counted| as real;
    && r.meanUs * n == SumUs(counted) as real
    && r.variance * (n * n) == Scatter(counted) as real
    && (r.variance == 0.0 <==> AllRoundAlike(counted))
  }

  /** For any window that has a record the moments are its own, so the clamp in summarize never alters the
      variance. */
  lemma ReportMoments(log: seq<Entry>, p: nat, c: nat, expectedWindow: int)
    requires p < c <= |log| < TWO_64 && SumSq(log[p..c]) < TWO_64
    ensures HasMoments(Summarize(Fold(log[..p]), Fold(log[..c]), expectedWindow), log[p..c])
  {
    hide Fold, SumUs, SumSq, Scatter, Rounded, Summarize;
    ReportIsExact(log, p, c, expectedWindow);
    ScatterIsVariance(log[p..c]);
    SummarizeDiffers(Fold(log[..p]), Fold(log[..c]), expectedWindow);
    MomentsFrom(Fold(log[..p]), Fold(log[..c]), expectedWindow, log[p..c]);
  }

  lemma SummarizeDiffers(prev: Snapshot, cur: Snapshot, expectedWindow: int)
    ensures var r := Summarize(prev, cur, expectedWindow);
            r.count == (cur.count - prev.count) % TWO_64 && r.elapsedUs == cur.sumUs - prev.sumUs
  {
  }

  lemma MomentsFrom(prev: Snapshot, cur: Snapshot, expectedWindow: int, window: seq<Entry>)
    requires (cur.count - prev.count) % TWO_64 == |window| >= 1 && (|window| == 1 ==> Scatter(window) == 0)
    requires cur.sumUs - prev.sumUs == SumUs(window)
    requires (cur.sumSqUs2 - prev.sumSqUs2) % TWO_64 == SumSq(window)
    requires Scatter(window) >= 0
    ensures var r := Summarize(prev, cur, expectedWindow);
            var n := |window| as real;
            && r.meanUs * n == SumUs(window) as real
            && r.variance * (n * n) == Scatter(window) as real
            && (r.variance == 0.0 <==> Scatter(window) == 0)
  {
    hide SumUs, SumSq;
    var n := |window| as real;
    var s1, s2 := SumUs(window), SumSq(window);
    var q, m := s2 as real / n, s1 as real / n;
    DivisionClears(s2 as real, n);
    DivisionClears(s1 as real, n);
    VarianceAlgebra(q, m, n, s2 as real, s1 as real);
    assert Scatter(window) as real == n * (s2 as real) - (s1 as real) * (s1 as real);
    ProductSign(q - m * m, n * n);
  }

  /** When the extremes belong to the very records that are counted, the mean lies between the
      rounded extremes. */
  lemma {:induction false} MeanBetweenExtremes(log: seq<Entry>, lo: int, hi: int)
    requires forall e :: e in log ==> lo <= e.sample.periodNs <= hi
    ensures |log| * NsToUsRounded(lo) <= SumUs(log) <= |log| * NsToUsRounded(hi)
  {
    hide NsToUsRounded;
    if log != [] {
      var n := |log| - 1;
      MeanBetweenExtremes(log[..n], lo, hi);
      assert log[n] in log;
      RoundingIsMonotone(lo, log[n].sample.periodNs);
      RoundingIsMonotone(log[n].sample.periodNs, hi);
      Distribute(n, 1, NsToUsRounded(lo));
      Distribute(n, 1, NsToUsRounded(hi));
    }
  }
}
