/** The scaled trajectory clock of ScaledJointTrajectoryController: each update advances `uptime` by the
    elapsed time times the speed scaling factor, truncated to whole nanoseconds, and samples the
    trajectory at the unscaled time since the last update. */
module ScaledClock {
  import opened Arithmetic
  import opened Wrappers

  datatype Clock = Clock(time: int, uptime: int, factor: real)

  /** One call of update(): the controller's time, the scaling interface's value if it was found, and
      whether the controller is active with a trajectory to follow. */
  datatype Tick = Tick(now: int, reading: Option<real>, running: bool)

  function Update(c: Clock, t: Tick): Clock {
    var factor := if t.reading.Some? then t.reading.value else c.factor;
    if !t.running then c.(factor := factor) else
    Clock(t.now, c.uptime + TruncToInt(factor * (t.now - c.time) as real), factor)
  }

  function After(c: Clock, ticks: seq<Tick>): Clock {
    if ticks == [] then c else Update(After(c, ticks[..|ticks| - 1]), ticks[|ticks| - 1])
  }

  /** Where the trajectory is sampled by the update t. */
  function SampleTime(c: Clock, t: Tick): int {
    c.uptime + (t.now - c.time)
  }

  predicate Factors(c: Clock, ticks: seq<Tick>) {
    && 0.0 <= c.factor <= 1.0
    && forall i :: 0 <= i < |ticks| && ticks[i].reading.Some? ==> 0.0 <= ticks[i].reading.value <= 1.0
  }

  /** Clock readings never go back. */
  predicate Ordered(c: Clock, ticks: seq<Tick>) {
    && (forall i :: 0 <= i < |ticks| ==> c.time <= ticks[i].now)
    && (forall i, j :: 0 <= i < j < |ticks| ==> ticks[i].now <= ticks[j].now)
  }

  // What the calls say by themselves, without the clock that Update keeps.

  /** The factor in force: the last one read, or the one held before. */
  function FactorRead(before: real, ticks: seq<Tick>): real {
    if ticks == [] then before
    else if ticks[|ticks| - 1].reading.Some? then ticks[|ticks| - 1].reading.value
    else FactorRead(before, ticks[..|ticks| - 1])
  }

  /** When the clock was last moved on, or started. */
  function LastUpdate(started: int, ticks: seq<Tick>): int {
    if ticks == [] then started
    else if ticks[|ticks| - 1].running then ticks[|ticks| - 1].now
    else LastUpdate(started, ticks[..|ticks| - 1])
  }

  /** The clock's ideal: the sum of factor times gap over the updates, with nothing truncated. */
  function Ideal(c: Clock, ticks: seq<Tick>): real {
    if ticks == [] then 0.0 else
    var front, t := ticks[..|ticks| - 1], ticks[|ticks| - 1];
    Ideal(c, front) +
      if t.running then FactorRead(c.factor, ticks) * (t.now - LastUpdate(c.time, front)) as real else 0.0
  }

  lemma {:induction false} ClockReads(c: Clock, ticks: seq<Tick>)
    ensures After(c, ticks).factor == FactorRead(c.factor, ticks)
    ensures After(c, ticks).time == LastUpdate(c.time, ticks)
  {
    if ticks != [] {
      ClockReads(c, ticks[..|ticks| - 1]);
    }
  }

  lemma IdealGrows(c: Clock, ticks: seq<Tick>)
    requires ticks != []
    ensures var front := ticks[..|ticks| - 1];
            Ideal(c, ticks) == Ideal(c, front) + IdealGain(After(c, front), ticks[|ticks| - 1])
  {
    ClockReads(c, ticks);
    ClockReads(c, ticks[..|ticks| - 1]);
  }

  function IdealGain(c: Clock, t: Tick): real {
    if t.running then Update(c, t).factor * (t.now - c.time) as real else 0.0
  }

  function Updates(ticks: seq<Tick>): nat {
    if ticks == [] then 0 else Updates(ticks[..|ticks| - 1]) + if ticks[|ticks| - 1].running then 1 else 0
  }

  lemma ScaledGap(f: real, gap: int)
    requires 0.0 <= f <= 1.0 && gap >= 0
    ensures 0 <= TruncToInt(f * gap as real) <= gap
    ensures f == 1.0 ==> TruncToInt(f * gap as real) == gap
  {
    assert 0.0 <= f * gap as real <= gap as real;
  }

  /** A single update in isolation. */
  lemma UpdateStep(c: Clock, t: Tick)
    requires Factors(c, [t]) && c.time <= t.now
    ensures var d := Update(c, t);
            && 0.0 <= d.factor <= 1.0 && c.time <= d.time <= t.now
            && 0 <= d.uptime - c.uptime <= d.time - c.time
            && (t.running && d.factor == 1.0 ==> d.uptime - c.uptime == d.time - c.time)
            && (t.running ==> 0.0 <= IdealGain(c, t) - (d.uptime - c.uptime) as real < 1.0)
            && (!t.running ==> IdealGain(c, t) == 0.0 && d.uptime == c.uptime)
  {
    assert [t][0] == t;
    var f := Update(c, t).factor;
    if t.running {
      ScaledGap(f, t.now - c.time);
    }
  }

  lemma NoIdealYet(c: Clock)
    ensures Ideal(c, []) == 0.0
  {
  }

  /** Over every run with factors in [0, 1]: the clock never outruns real time, and after n updates it
      is below its ideal by less than n nanoseconds, or by nothing at all before the first. */
  lemma {:induction false} ClockDrift(c: Clock, ticks: seq<Tick>)
    requires Factors(c, ticks) && Ordered(c, ticks)
    ensures var d := After(c, ticks);
            && 0.0 <= d.factor <= 1.0 && c.time <= d.time
            && (ticks != [] ==> d.time <= ticks[|ticks| - 1].now)
            && 0 <= d.uptime - c.uptime <= d.time - c.time
            && var short := Ideal(c, ticks) - (d.uptime - c.uptime) as real;
               if Updates(ticks) == 0 then short == 0.0 else 0.0 <= short < Updates(ticks) as real
  {
    hide Update, IdealGain, Ideal;
    NoIdealYet(c);
    if ticks != [] {
      var n := |ticks| - 1;
      var front, t := ticks[..n], ticks[n];
      ClockDrift(c, front);
      IdealGrows(c, ticks);
      assert n > 0 ==> front[n - 1] == ticks[n - 1];
      UpdateStep(After(c, front), t);
    }
  }

  /** uptime never decreases from one call to the next. */
  lemma UptimeIsMonotone(c: Clock, ticks: seq<Tick>, i: nat, j: nat)
    requires Factors(c, ticks) && Ordered(c, ticks) && i <= j <= |ticks|
    ensures After(c, ticks[..i]).uptime <= After(c, ticks[..j]).uptime
    decreases j
  {
    hide Update, IdealGain, Ideal;
    if i < j {
      UptimeIsMonotone(c, ticks, i, j - 1);
      var front := ticks[..j - 1];
      ClockDrift(c, front);
      assert front != [] ==> front[j - 2] == ticks[j - 2];
      assert ticks[..j][..j - 1] == ticks[..j - 1];
      UpdateStep(After(c, ticks[..j - 1]), ticks[j - 1]);
    }
  }

  /** The trajectory is never sampled ahead of real time by more than the gap between the two clock
      readings of on_activate, and exactly there if and only if every update so far that had time to scale
      used a factor of 1. */
  lemma SampleNeverAhead(c: Clock, ticks: seq<Tick>, t: Tick)
    requires Factors(c, ticks) && Ordered(c, ticks)
    ensures SampleTime(After(c, ticks), t) <= t.now + (c.uptime - c.time)
    ensures SampleTime(After(c, ticks), t) == t.now + (c.uptime - c.time) <==> AllFull(c, ticks)
  {
    ClockDrift(c, ticks);
    FullSpeed(c, ticks);
  }

  /** Update i, if it had time to scale, used a factor of 1: the one just read, or else the last one read. */
  predicate FullUpdate(c: Clock, ticks: seq<Tick>, i: nat)
    requires i < |ticks|
  {
    ticks[i].running && ticks[i].now > LastUpdate(c.time, ticks[..i]) ==> FactorRead(c.factor, ticks[..i + 1]) == 1.0
  }

  predicate AllFull(c: Clock, ticks: seq<Tick>) {
    forall i :: 0 <= i < |ticks| ==> FullUpdate(c, ticks, i)
  }

  predicate FullAt(c: Clock, t: Tick) {
    t.running && t.now > c.time ==> Update(c, t).factor == 1.0
  }

  /** In particular after an activation whose readings were all 1, whatever factor was held before. */
  lemma {:induction false} ReadingsOfOne(c: Clock, ticks: seq<Tick>)
    requires forall i :: 0 <= i < |ticks| ==> ticks[i].reading == Some(1.0)
    ensures AllFull(c, ticks)
  {
    forall i | 0 <= i < |ticks| ensures FullUpdate(c, ticks, i) {
      assert ticks[..i + 1][i] == ticks[i];
    }
  }

  lemma AllFullSoFar(c: Clock, ticks: seq<Tick>)
    requires ticks != []
    ensures AllFull(c, ticks) <==> AllFull(c, ticks[..|ticks| - 1]) && FullAt(After(c, ticks[..|ticks| - 1]), ticks[|ticks| - 1])
  {
    var n := |ticks| - 1;
    var front := ticks[..n];
    LastUpdateIsFull(c, ticks);
    hide FullUpdate, FullAt, After;
    forall i | 0 <= i < n ensures FullUpdate(c, front, i) <==> FullUpdate(c, ticks, i) {
      FullInPrefix(c, ticks, n, i);
    }
  }

  lemma FullInPrefix(c: Clock, ticks: seq<Tick>, n: nat, i: nat)
    requires i < n <= |ticks|
    ensures FullUpdate(c, ticks[..n], i) <==> FullUpdate(c, ticks, i)
  {
    hide FactorRead, LastUpdate;
    assert ticks[..n][..i] == ticks[..i] && ticks[..n][..i + 1] == ticks[..i + 1];
  }

  lemma LastUpdateIsFull(c: Clock, ticks: seq<Tick>)
    requires ticks != []
    ensures FullUpdate(c, ticks, |ticks| - 1) <==> FullAt(After(c, ticks[..|ticks| - 1]), ticks[|ticks| - 1])
  {
    ClockReads(c, ticks[..|ticks| - 1]);
    ClockReads(c, ticks);
    assert ticks[..|ticks|] == ticks;
    hide FactorRead, LastUpdate;
  }

  lemma PartialFactorLoses(f: real, gap: int)
    requires 0.0 <= f <= 1.0 && gap >= 0
    ensures TruncToInt(f * gap as real) == gap <==> gap == 0 || f == 1.0
  {
    if f < 1.0 && gap > 0 {
      assert f * gap as real < 1.0 * gap as real;
    }
  }

  lemma {:induction false} FullSpeed(c: Clock, ticks: seq<Tick>)
    requires Factors(c, ticks) && Ordered(c, ticks)
    ensures var d := After(c, ticks); d.uptime - c.uptime == d.time - c.time <==> AllFull(c, ticks)
  {
    if ticks != [] {
      var n := |ticks| - 1;
      var front, t := ticks[..n], ticks[n];
      var d := After(c, front);
      FullSpeed(c, front);
      ClockDrift(c, front);
      assert n > 0 ==> front[n - 1] == ticks[n - 1];
      AllFullSoFar(c, ticks);
      OneTick(d, t);
      hide Update, Ideal, AllFull, TruncToInt;
    }
  }

  lemma OneTick(c: Clock, t: Tick)
    requires Factors(c, [t]) && c.time <= t.now
    ensures var d := Update(c, t);
            && d.uptime - c.uptime <= d.time - c.time
            && (d.uptime - c.uptime == d.time - c.time <==> FullAt(c, t))
  {
    UpdateStep(c, t);
    if t.running {
      PartialFactorLoses(Update(c, t).factor, t.now - c.time);
    }
  }

  class ScaledController {
    var timeData: Clock
    const interfaceFound: bool

    constructor (interfaceFound: bool)
      ensures timeData.factor == 0.0 && this.interfaceFound == interfaceFound
    {
      timeData := Clock(0, 0, 0.0);
      this.interfaceFound := interfaceFound;
    }

    /** Reads the clock twice, so uptime starts at or after time. */
    method OnActivate(first: int, second: int)
      requires first <= second
      modifies this
      ensures timeData == Clock(first, second, old(timeData).factor) && timeData.time <= timeData.uptime
    {
      timeData := timeData.(time := first);
      timeData := timeData.(uptime := second);
    }

    /** The time-scaling part of update(). An inactive controller returns after reading the factor. */
    method OnUpdate(now: int, value: real, active: bool, hasTrajectory: bool) returns (sampledAt: Option<int>)
      modifies this
      ensures var t := Tick(now, if interfaceFound then Some(value) else None, active && hasTrajectory);
              && timeData == Update(old(timeData), t)
              && sampledAt == if t.running then Some(SampleTime(old(timeData), t)) else None
    {
      sampledAt := None;
      if interfaceFound {
        timeData := timeData.(factor := value);
      }
      if !active {
        return;
      }
      if hasTrajectory {
        var tPeriod := now - timeData.time;
        var period := TruncToInt(timeData.factor * tPeriod as real);
        var trajTime := timeData.uptime + tPeriod;
        timeData := timeData.(time := now, uptime := timeData.uptime + period);
        sampledAt := Some(trajTime);
      }
    }
  }
}
