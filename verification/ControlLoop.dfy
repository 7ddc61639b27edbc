/** The cyclic loop of control_node.cpp: sleep to the deadline, classify the wake-up, pick the next
    deadline, record the cycle. Wake-up times come from the environment. */
module ControlLoop {
  import opened Arithmetic
  import opened Timebase
  import opened PeriodStats

  datatype LoopState = LoopState(deadline: TimeSpec, previousWake: TimeSpec)

  function Start(now: TimeSpec, p: int): LoopState {
    LoopState(ResyncToGrid(now, p), now)
  }

  function Cycle(s: LoopState, wake: TimeSpec, p: int): LoopState {
    LoopState(Advance(s.deadline, wake, p).nextDeadline, wake)
  }

  /** What the cycle that wakes at `wake` records. */
  function SampleOf(s: LoopState, wake: TimeSpec, p: int): CycleSample
    requires p > 0
  {
    var c := Classify(wake, s.deadline, p);
    var gap := DiffNs(wake, s.previousWake);
    CycleSample(gap, c.latenessNs, c.verdict == Overrun, ClampMeasuredPeriod(gap, p).clamped)
  }

  /** The loop variables after the given wake-ups. */
  function After(start: TimeSpec, wakes: seq<TimeSpec>, p: int): LoopState {
    if wakes == [] then Start(start, p)
    else Cycle(After(start, wakes[..|wakes| - 1], p), wakes[|wakes| - 1], p)
  }

  function Samples(start: TimeSpec, wakes: seq<TimeSpec>, p: int): (samples: seq<CycleSample>)
    requires p > 0
    ensures |samples| == |wakes|
  {
    if wakes == [] then [] else
    var front := wakes[..|wakes| - 1];
    Samples(start, front, p) + [SampleOf(After(start, front, p), wakes[|wakes| - 1], p)]
  }

  method Run(start: TimeSpec, wakes: seq<TimeSpec>, p: int) returns (deadline: TimeSpec, samples: seq<CycleSample>)
    requires p > 0
    ensures deadline == After(start, wakes, p).deadline
    ensures samples == Samples(start, wakes, p)
  {
    var previousWake := start;
    deadline := ResyncToGrid(previousWake, p);
    samples := [];
    var i := 0;
    while i < |wakes|
      invariant 0 <= i <= |wakes|
      invariant LoopState(deadline, previousWake) == After(start, wakes[..i], p)
      invariant samples == Samples(start, wakes[..i], p)
    {
      var wake := wakes[i];
      var step := Advance(deadline, wake, p);
      deadline := step.nextDeadline;
      var wakeGapNs := DiffNs(wake, previousWake);
      previousWake := wake;
      var dt := ClampMeasuredPeriod(wakeGapNs, p);
      var sample := CycleSample(wakeGapNs, step.wake.latenessNs, step.wake.verdict == Overrun, dt.clamped);
      samples := samples + [sample];
      assert wakes[..i + 1][..i] == wakes[..i];
      i := i + 1;
    }
    assert wakes[..i] == wakes;
  }

  /** Readings of CLOCK_MONOTONIC_RAW are never negative. */
  predicate ClockReadings(start: TimeSpec, wakes: seq<TimeSpec>) {
    ToNs(start) >= 0 && forall i :: 0 <= i < |wakes| ==> ToNs(wakes[i]) >= 0
  }

  /** Grid slots lost over a run, told from the lateness the statistics record. */
  function TotalLost(samples: seq<CycleSample>, p: int): nat
    requires p >= 2
  {
    if samples == [] then 0
    else TotalLost(samples[..|samples| - 1], p) + SlotsLost(samples[|samples| - 1].latenessNs, p)
  }

  /** Every deadline of every run is a normalised timespec on a multiple of the period. */
  lemma {:induction false} DeadlinesOnGrid(start: TimeSpec, wakes: seq<TimeSpec>, p: int)
    requires p >= 2 && ClockReadings(start, wakes)
    ensures var d := After(start, wakes, p).deadline; Normalised(d) && OnGrid(ToNs(d), p)
  {
    hide OnGrid, Advance;
    if wakes != [] {
      DeadlinesOnGrid(start, wakes[..|wakes| - 1], p);
      OneCycle(start, wakes, p);
    }
  }

  /** Grid conservation, over every run: the deadline has moved by one period per cycle plus one per
      slot lost, told from the recorded lateness. Nothing else ever shifts the phase. */
  lemma {:induction false} GridConservation(start: TimeSpec, wakes: seq<TimeSpec>, p: int)
    requires p >= 2 && ClockReadings(start, wakes)
    ensures var first, last := Start(start, p).deadline, After(start, wakes, p).deadline;
            ToNs(last) - ToNs(first) == (|wakes| + TotalLost(Samples(start, wakes, p), p)) * p
  {
    hide OnGrid, Advance, SlotsLost;
    if wakes != [] {
      var n := |wakes| - 1;
      DeadlinesOnGrid(start, wakes[..n], p);
      GridConservation(start, wakes[..n], p);
      OneCycle(start, wakes, p);
      SampleAt(start, wakes, p, n);
      var before := TotalLost(Samples(start, wakes[..n], p), p);
      assert Samples(start, wakes, p)[..n] == Samples(start, wakes[..n], p);
      Distribute(n + before, 1 + LostAt(start, wakes, p), p);
    }
  }

  /** Slots lost by the last cycle of a run. */
  function LostAt(start: TimeSpec, wakes: seq<TimeSpec>, p: int): nat
    requires p >= 2 && wakes != []
  {
    var n := |wakes| - 1;
    SlotsLost(DiffNs(wakes[n], After(start, wakes[..n], p).deadline), p)
  }

  lemma OneCycle(start: TimeSpec, wakes: seq<TimeSpec>, p: int)
    requires p >= 2 && ClockReadings(start, wakes) && wakes != []
    requires var d := After(start, wakes[..|wakes| - 1], p).deadline; Normalised(d) && OnGrid(ToNs(d), p)
    ensures var d, n := After(start, wakes[..|wakes| - 1], p).deadline, After(start, wakes, p).deadline;
            && Normalised(n) && OnGrid(ToNs(n), p)
            && ToNs(n) == ToNs(d) + (1 + LostAt(start, wakes, p)) * p
            && ToNs(n) >= ToNs(d) + p && ToNs(n) > ToNs(wakes[|wakes| - 1])
  {
    hide OnGrid, Advance, SlotsLost;
    AdvanceOnGrid(After(start, wakes[..|wakes| - 1], p).deadline, wakes[|wakes| - 1], p);
  }

  /** Between cycle i and cycle j the deadline moves at least (j - i) periods on, past wake-up i. */
  lemma {:induction false} DeadlinesSpread(start: TimeSpec, wakes: seq<TimeSpec>, p: int, i: nat, j: nat)
    requires p >= 2 && ClockReadings(start, wakes) && i < j <= |wakes|
    ensures ToNs(After(start, wakes[..j], p).deadline) > ToNs(wakes[i]) + (j - i - 1) * p
    decreases j
  {
    hide OnGrid, Advance, SlotsLost;
    DeadlinesOnGrid(start, wakes[..j - 1], p);
    assert wakes[..j][..j - 1] == wakes[..j - 1];
    OneCycle(start, wakes[..j], p);
    if i < j - 1 {
      DeadlinesSpread(start, wakes, p, i, j - 1);
      Distribute(j - i - 2, 1, p);
    }
  }

  /** No burst: if a sleep ends at most e early, then j - i cycles always take more than j - i - 1
      periods less e, whatever stalls came before. */
  lemma {:induction false} NoBurst(start: TimeSpec, wakes: seq<TimeSpec>, p: int, e: int, i: nat, j: nat)
    requires p >= 2 && ClockReadings(start, wakes) && i < j < |wakes|
    requires forall k :: 0 <= k < |wakes| ==> ToNs(wakes[k]) >= ToNs(After(start, wakes[..k], p).deadline) - e
    ensures ToNs(wakes[j]) - ToNs(wakes[i]) > (j - i - 1) * p - e
  {
    DeadlinesSpread(start, wakes, p, i, j);
  }

  function SumPeriods(samples: seq<CycleSample>): int {
    if samples == [] then 0 else SumPeriods(samples[..|samples| - 1]) + samples[|samples| - 1].periodNs
  }

  /** The wake-up before cycle i, or the loop's start. */
  function WakeBefore(start: TimeSpec, wakes: seq<TimeSpec>, i: nat): TimeSpec
    requires i <= |wakes|
  {
    if i == 0 then start else wakes[i - 1]
  }

  /** What a sample records, over every run, in nanoseconds of the raw clock: the time since the wake-up
      before, how late the wake-up was against the deadline the loop slept to, and the two flags. */
  lemma SampleMeans(start: TimeSpec, wakes: seq<TimeSpec>, p: int, k: nat)
    requires p > 0 && k < |wakes|
    ensures var x, deadline := Samples(start, wakes, p)[k], After(start, wakes[..k], p).deadline;
            && x.periodNs == ToNs(wakes[k]) - ToNs(WakeBefore(start, wakes, k))
            && x.latenessNs == ToNs(wakes[k]) - ToNs(deadline)
            && (x.overrun <==> x.latenessNs >= p)
            && (x.clamped <==> x.periodNs < 0 || x.periodNs > 10 * p)
  {
    SampleAt(start, wakes, p, k);
    PreviousWakeIs(start, wakes, p, k);
  }

  lemma PreviousWakeIs(start: TimeSpec, wakes: seq<TimeSpec>, p: int, i: nat)
    requires i <= |wakes|
    ensures After(start, wakes[..i], p).previousWake == WakeBefore(start, wakes, i)
  {
  }

  /** The loop's first deadline is the first grid point at least half a period after its start. */
  lemma FirstDeadline(start: TimeSpec, p: int)
    requires p > 0 && ToNs(start) >= 0
    ensures var d := After(start, [], p).deadline; Normalised(d) && IsResumePoint(ToNs(d), ToNs(start), p)
  {
  }

  /** The recorded periods telescope: over any stretch of a run they add up to the raw-clock time
      from the wake-up before the stretch to its last one. */
  lemma {:induction false} PeriodsTelescope(start: TimeSpec, wakes: seq<TimeSpec>, p: int, i: nat, j: nat)
    requires p > 0 && i <= j <= |wakes|
    ensures SumPeriods(Samples(start, wakes, p)[i..j])
         == ToNs(WakeBefore(start, wakes, j)) - ToNs(WakeBefore(start, wakes, i))
    decreases j
  {
    hide Advance, ClampMeasuredPeriod, Classify;
    if i < j {
      PeriodsTelescope(start, wakes, p, i, j - 1);
      var samples := Samples(start, wakes, p);
      SampleMeans(start, wakes, p, j - 1);
      assert samples[i..j][..j - 1 - i] == samples[i..j - 1];
    }
  }

  lemma {:induction false} SampleAt(start: TimeSpec, wakes: seq<TimeSpec>, p: int, k: nat)
    requires p > 0 && k < |wakes|
    ensures Samples(start, wakes, p)[k] == SampleOf(After(start, wakes[..k], p), wakes[k], p)
    decreases |wakes|
  {
    var front := wakes[..|wakes| - 1];
    if k < |front| {
      SampleAt(start, front, p, k);
      assert front[..k] == wakes[..k];
    }
  }
}
