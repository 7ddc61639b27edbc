/** PeriodStats of rt_timebase: what one record() does to the published counters and extremes, what a
    whole log of records adds up to, and the object that does it in place. */
module PeriodStats {
  import opened Timebase

  const TWO_32 := 0x1_0000_0000
  const TWO_64 := 0x1_0000_0000_0000_0000

  datatype CycleSample = CycleSample(periodNs: int, latenessNs: int, overrun: bool, clamped: bool)

  /** The fields the loop publishes. Widths follow the source: window is 32-bit, count, sumSqUs2,
      overruns and clamps are unsigned 64-bit and wrap; sumUs and the extremes are signed 64-bit,
      where wrapping would be undefined behaviour, and are unbounded here. */
  datatype Snapshot = Snapshot(
    count: int, sumUs: int, sumSqUs2: int, overruns: int, clamps: int,
    minNs: int, maxNs: int, maxLatenessNs: int, window: int)

  const EMPTY := Snapshot(0, 0, 0, 0, 0, 0, 0, 0, 0)

  /** Rounds to the nearest microsecond, halves away from zero, so it is odd-symmetric. */
  function NsToUsRounded(ns: int): (us: int)
    ensures -500 <= 1000 * us - ns <= 500
    ensures ns >= 0 ==> us >= 0
    ensures ns <= 0 ==> us <= 0
  {
    if ns >= 0 then (ns + NS_PER_US / 2) / NS_PER_US else -((-ns + NS_PER_US / 2) / NS_PER_US)
  }

  lemma RoundingIsMonotone(a: int, b: int)
    requires a <= b
    ensures NsToUsRounded(a) <= NsToUsRounded(b)
  {
  }

  function Abs(x: int): int {
    if x < 0 then -x else x
  }

  function Square(x: int): nat {
    Abs(x) * Abs(x)
  }

  function Min(a: int, b: int): int {
    if a < b then a else b
  }

  function Max(a: int, b: int): int {
    if a > b then a else b
  }

  /** One record() on the published state w, when window_request reads `requested`. The loop-private
      window_seen_ is always equal to w.window, see Recorder.Valid. */
  function Recorded(w: Snapshot, requested: int, s: CycleSample): Snapshot {
    var newWindow := requested != w.window || w.count == 0;
    var us := NsToUsRounded(s.periodNs);
    Snapshot(
      (w.count + 1) % TWO_64,
      w.sumUs + us,
      (w.sumSqUs2 + Square(us)) % TWO_64,
      if s.overrun then (w.overruns + 1) % TWO_64 else w.overruns,
      if s.clamped then (w.clamps + 1) % TWO_64 else w.clamps,
      if newWindow then s.periodNs else Min(s.periodNs, w.minNs),
      if newWindow then s.periodNs else Max(s.periodNs, w.maxNs),
      if newWindow then s.latenessNs else Max(s.latenessNs, w.maxLatenessNs),
      if newWindow then requested else w.window)
  }

  /** A completed record(): its sample, and how many resets had been requested, in all, when it loaded
      window_request. The 32-bit word it loaded is that number modulo 2^32. */
  datatype Entry = Entry(sample: CycleSample, requests: nat)

  function Fold(log: seq<Entry>): Snapshot {
    if log == [] then EMPTY
    else
      var last := log[|log| - 1];
      Recorded(Fold(log[..|log| - 1]), last.requests % TWO_32, last.sample)
  }

  // What the counters of a log should be, defined on the log alone.

  function SumUs(log: seq<Entry>): int {
    if log == [] then 0 else SumUs(log[..|log| - 1]) + NsToUsRounded(log[|log| - 1].sample.periodNs)
  }

  function SumSq(log: seq<Entry>): nat {
    if log == [] then 0 else
    var us := NsToUsRounded(log[|log| - 1].sample.periodNs);
    SumSq(log[..|log| - 1]) + Square(us)
  }

  function Overruns(log: seq<Entry>): nat {
    if log == [] then 0 else Overruns(log[..|log| - 1]) + if log[|log| - 1].sample.overrun then 1 else 0
  }

  function Clamps(log: seq<Entry>): nat {
    if log == [] then 0 else Clamps(log[..|log| - 1]) + if log[|log| - 1].sample.clamped then 1 else 0
  }

  lemma ModAdd(a: int, b: int)
    ensures (a % TWO_64 + b) % TWO_64 == (a + b) % TWO_64
  {
  }

  /** The counters are the sums over the whole log, modulo 2^64 where the source wraps. */
  lemma {:induction false} FoldCounters(log: seq<Entry>)
    ensures var f := Fold(log);
            && f.count == |log| % TWO_64
            && f.sumUs == SumUs(log)
            && f.sumSqUs2 == SumSq(log) % TWO_64
            && f.overruns == Overruns(log) % TWO_64
            && f.clamps == Clamps(log) % TWO_64
  {
    if log != [] {
      var front, last := log[..|log| - 1], log[|log| - 1];
      FoldCounters(front);
      var us := NsToUsRounded(last.sample.periodNs);
      ModAdd(SumSq(front), Square(us));
      ModAdd(|front|, 1);
      ModAdd(Overruns(front), 1);
      ModAdd(Clamps(front), 1);
    }
  }

  /** The request numbers a log carries never go down, and no record() finds 2^32 or more new
      requests, so equal 32-bit words mean equal request numbers. A log of 2^64 records would take
      longer than any robot runs. */
  predicate Countable(log: seq<Entry>) {
    && |log| < TWO_64
    && (forall i, j :: 0 <= i <= j < |log| ==> log[i].requests <= log[j].requests)
    && (forall i :: 0 < i < |log| ==> log[i].requests < log[i - 1].requests + TWO_32)
  }

  /** m, M and late are exactly the smallest and largest period and the largest lateness in log. */
  ghost predicate AreExtremes(m: int, M: int, late: int, log: seq<Entry>) {
    && (forall e :: e in log ==> m <= e.sample.periodNs <= M && e.sample.latenessNs <= late)
    && (exists e :: e in log && e.sample.periodNs == m)
    && (exists e :: e in log && e.sample.periodNs == M)
    && (exists e :: e in log && e.sample.latenessNs == late)
  }

  /** Where the newest window starts: the first record that saw the request the last record saw. */
  function WindowStart(log: seq<Entry>): (w: nat)
    requires log != []
    ensures w < |log|
    ensures forall i :: w <= i < |log| ==> log[i].requests == log[|log| - 1].requests
    ensures w > 0 ==> log[w - 1].requests != log[w].requests
  {
    WindowStartFrom(log, |log| - 1)
  }

  function WindowStartFrom(log: seq<Entry>, k: nat): (w: nat)
    requires k < |log|
    ensures w <= k
    ensures forall i :: w <= i <= k ==> log[i].requests == log[k].requests
    ensures w > 0 ==> log[w - 1].requests != log[w].requests
  {
    if k == 0 || log[k - 1].requests != log[k].requests then k else WindowStartFrom(log, k - 1)
  }

  lemma {:induction false} WindowStartLocal(log: seq<Entry>, shorter: seq<Entry>, k: nat)
    requires k < |shorter| && shorter <= log
    ensures WindowStartFrom(log, k) == WindowStartFrom(shorter, k)
  {
    if k > 0 {
      WindowStartLocal(log, shorter, k - 1);
    }
  }

  lemma Mod32Equal(a: nat, b: nat)
    requires a <= b < a + TWO_32
    ensures a % TWO_32 == b % TWO_32 <==> a == b
  {
  }

  /** The extremes are over exactly the records of the newest window, and `window` names it. */
  lemma {:induction false} FoldExtremes(log: seq<Entry>)
    requires log != [] && Countable(log)
    ensures var f := Fold(log);
            && f.window == log[|log| - 1].requests % TWO_32
            && AreExtremes(f.minNs, f.maxNs, f.maxLatenessNs, log[WindowStart(log)..])
  {
    hide Square, NsToUsRounded;
    var n := |log| - 1;
    var front, last := log[..n], log[n];
    if n == 0 {
      NewWindow(log);
    } else {
      assert Countable(front);
      FoldExtremes(front);
      FoldCounters(front);
      Mod32Equal(front[n - 1].requests, last.requests);
      if last.requests == front[n - 1].requests {
        SameWindow(log);
      } else {
        NewWindow(log);
      }
    }
  }

  lemma NewWindow(log: seq<Entry>)
    requires log != []
    requires var n := |log| - 1;
             n > 0 ==> log[n].requests != log[n - 1].requests && log[n].requests % TWO_32 != Fold(log[..n]).window
    ensures var f, last := Fold(log), log[|log| - 1];
            && f.window == last.requests % TWO_32
            && AreExtremes(f.minNs, f.maxNs, f.maxLatenessNs, log[WindowStart(log)..])
  {
    var last := log[|log| - 1];
    assert log[WindowStart(log)..] == [last];
    assert last in [last];
  }

  lemma SameWindow(log: seq<Entry>)
    requires var n := |log| - 1;
             && 0 < n < TWO_64 && log[n].requests == log[n - 1].requests
             && Fold(log[..n]).window == log[n].requests % TWO_32 && Fold(log[..n]).count != 0
             && var f := Fold(log[..n]);
                AreExtremes(f.minNs, f.maxNs, f.maxLatenessNs, log[..n][WindowStart(log[..n])..])
    ensures var f, last := Fold(log), log[|log| - 1];
            && f.window == last.requests % TWO_32
            && AreExtremes(f.minNs, f.maxNs, f.maxLatenessNs, log[WindowStart(log)..])
  {
    hide Square, NsToUsRounded, AreExtremes, WindowStart, WindowStartFrom;
    var n := |log| - 1;
    WindowGrows(log);
    ExtremesGrow(Fold(log[..n]), log[..n][WindowStart(log[..n])..], log[n]);
  }

  lemma WindowGrows(log: seq<Entry>)
    requires |log| >= 2 && log[|log| - 1].requests == log[|log| - 2].requests
    ensures var front := log[..|log| - 1];
            log[WindowStart(log)..] == front[WindowStart(front)..] + [log[|log| - 1]]
  {
    WindowStartLocal(log, log[..|log| - 1], |log| - 2);
  }

  lemma ExtremesGrow(f: Snapshot, window: seq<Entry>, e: Entry)
    requires AreExtremes(f.minNs, f.maxNs, f.maxLatenessNs, window)
    ensures AreExtremes(Min(e.sample.periodNs, f.minNs), Max(e.sample.periodNs, f.maxNs),
                        Max(e.sample.latenessNs, f.maxLatenessNs), window + [e])
  {
    var longer := window + [e];
    assert e in longer;
    forall x | x in window ensures x in longer {}
  }

  /** The object itself: Writer, the loop-private window_seen_, and Reader's window_request. Calls do
      not overlap here; StatsProtocol lets them. */
  class Recorder {
    var seqno: int
    var w: Snapshot
    var windowSeen: int
    var windowRequest: int

    ghost predicate Valid()
      reads this
    {
      && 0 <= seqno < TWO_32 && seqno % 2 == 0
      && 0 <= windowRequest < TWO_32
      && windowSeen == w.window
    }

    constructor ()
      ensures Valid() && w == EMPTY && windowRequest == 0
    {
      seqno, w, windowSeen, windowRequest := 0, EMPTY, 0, 0;
    }

    method Record(s: CycleSample)
      requires Valid()
      modifies this`seqno, this`w, this`windowSeen
      ensures Valid() && w == Recorded(old(w), windowRequest, s) && w.window == windowRequest
      ensures seqno == (old(seqno) + 2) % TWO_32
    {
      var before := seqno;
      seqno := (before + 1) % TWO_32;
      UpdateExtremes(s);
      UpdateCounters(s);
      seqno := (before + 2) % TWO_32;
    }

    /** The first half of record(): apply a pending window reset before folding this sample in. */
    method UpdateExtremes(s: CycleSample)
      requires windowSeen == w.window
      modifies this`w, this`windowSeen
      ensures windowSeen == w.window
      ensures var r := Recorded(old(w), windowRequest, s);
              w == old(w).(window := r.window, minNs := r.minNs, maxNs := r.maxNs, maxLatenessNs := r.maxLatenessNs)
    {
      hide Square;
      var requested := windowRequest;
      if requested != windowSeen || w.count == 0 {
        windowSeen := requested;
        w := w.(window := requested, minNs := s.periodNs, maxNs := s.periodNs, maxLatenessNs := s.latenessNs);
      } else {
        if s.periodNs < w.minNs {
          w := w.(minNs := s.periodNs);
        }
        if s.periodNs > w.maxNs {
          w := w.(maxNs := s.periodNs);
        }
        if s.latenessNs > w.maxLatenessNs {
          w := w.(maxLatenessNs := s.latenessNs);
        }
      }
    }

    /** The second half: the monotonic counters, squaring in wrapping unsigned arithmetic. */
    method UpdateCounters(s: CycleSample)
      modifies this`w
      ensures var r := Recorded(old(w), windowRequest, s);
              w == old(w).(count := r.count, sumUs := r.sumUs, sumSqUs2 := r.sumSqUs2,
                           overruns := r.overruns, clamps := r.clamps)
    {
      var us := NsToUsRounded(s.periodNs);
      var absUs := if us < 0 then -us else us;
      var squared := absUs * absUs;
      assert squared == Square(us);
      hide Square;
      w := w.(count := (w.count + 1) % TWO_64);
      w := w.(sumUs := w.sumUs + us);
      w := w.(sumSqUs2 := (w.sumSqUs2 + squared) % TWO_64);
      if s.overrun {
        w := w.(overruns := (w.overruns + 1) % TWO_64);
      }
      if s.clamped {
        w := w.(clamps := (w.clamps + 1) % TWO_64);
      }
    }

    method RequestWindowReset() returns (window: int)
      requires Valid()
      modifies this`windowRequest
      ensures Valid() && windowRequest == window == (old(windowRequest) + 1) % TWO_32
    {
      windowRequest := (windowRequest + 1) % TWO_32;
      window := windowRequest;
    }
  }
}
