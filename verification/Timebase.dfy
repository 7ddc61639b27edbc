/** Grid arithmetic of the control loop: rt_timebase.hpp and the pure half of rt_timebase.cpp.
    Clock values are 64-bit in the source ("fine for ~292 years"); here they are unbounded integers. */
module Timebase {
  import opened Arithmetic

  const NS_PER_SEC := 1_000_000_000
  const NS_PER_US := 1_000
  const MAX_MEASURED_PERIODS := 10

  datatype TimeSpec = TimeSpec(sec: int, nsec: int)

  predicate Normalised(t: TimeSpec) {
    0 <= t.nsec < NS_PER_SEC
  }

  function ToNs(t: TimeSpec): int {
    t.sec * NS_PER_SEC + t.nsec
  }

  /** A non-negative count converts to the one normalised timespec that stands for it. */
  function FromNs(ns: int): (t: TimeSpec)
    ensures ToNs(t) == ns
    ensures ns >= 0 ==> Normalised(t)
  {
    TimeSpec(TruncDiv(ns, NS_PER_SEC), TruncMod(ns, NS_PER_SEC))
  }

  function DiffNs(a: TimeSpec, b: TimeSpec): (d: int)
    ensures d == ToNs(a) - ToNs(b)
  {
    (a.sec - b.sec) * NS_PER_SEC + (a.nsec - b.nsec)
  }

  /** Adds exactly ns, and normalises whatever it was given, for either sign of ns. */
  function AddNs(t: TimeSpec, ns: int): (out: TimeSpec)
    ensures ToNs(out) == ToNs(t) + ns
    ensures Normalised(out)
  {
    var total := t.nsec + ns;
    var carry := TruncDiv(total, NS_PER_SEC);
    var rest := total - carry * NS_PER_SEC;
    if rest < 0 then TimeSpec(t.sec + carry - 1, rest + NS_PER_SEC) else TimeSpec(t.sec + carry, rest)
  }

  /** Normalised timespecs are in one-to-one correspondence with their nanosecond counts, so a
      statement about ToNs is a statement about the timespec itself. */
  lemma NormalisedIsUnique(a: TimeSpec, b: TimeSpec)
    requires Normalised(a) && Normalised(b) && ToNs(a) == ToNs(b)
    ensures a == b
  {
  }

  datatype Verdict = OnTime | Late | Overrun

  datatype Classification = Classification(verdict: Verdict, latenessNs: int)

  function Classify(now: TimeSpec, deadline: TimeSpec, periodNs: int): Classification {
    var lateness := DiffNs(now, deadline);
    if lateness <= 0 then Classification(OnTime, lateness)
    else if lateness < periodNs then Classification(Late, lateness)
    else Classification(Overrun, lateness)
  }

  /** The three verdicts, by how late the wake-up is. */
  lemma ClassifyMeans(now: TimeSpec, deadline: TimeSpec, periodNs: int)
    requires periodNs > 0
    ensures var c, late := Classify(now, deadline, periodNs), ToNs(now) - ToNs(deadline);
            && c.latenessNs == late
            && (c.verdict == OnTime <==> late <= 0)
            && (c.verdict == Late <==> 0 < late < periodNs)
            && (c.verdict == Overrun <==> late >= periodNs)
  {
  }

  predicate OnGrid(x: int, periodNs: int)
    requires periodNs > 0
  {
    x % periodNs == 0
  }

  /** What a resumption point means: the first grid point at least half a period after now. */
  predicate IsResumePoint(g: int, now: int, periodNs: int)
    requires periodNs > 0
  {
    OnGrid(g, periodNs) && now + periodNs / 2 <= g < now + periodNs / 2 + periodNs
  }

  lemma ResumePointIsUnique(g: int, h: int, now: int, periodNs: int)
    requires periodNs > 0 && IsResumePoint(g, now, periodNs) && IsResumePoint(h, now, periodNs)
    ensures g == h
  {
    MultiplesInBracket(g / periodNs, h / periodNs, now + periodNs / 2, periodNs);
  }

  lemma MultiplesInBracket(i: int, j: int, t: int, p: int)
    requires p > 0 && t <= i * p < t + p && t <= j * p < t + p
    ensures i == j
  {
    QuotientUnique(i, j, p, t + p - 1);
  }

  /** The source's ceiling works for clock values, which are never negative. */
  function ResyncToGrid(now: TimeSpec, periodNs: int): (g: TimeSpec)
    ensures periodNs <= 0 ==> g == now
    ensures periodNs > 0 && ToNs(now) >= 0 ==> IsResumePoint(ToNs(g), ToNs(now), periodNs) && Normalised(g)
  {
    if periodNs <= 0 then now else
    var earliest := ToNs(now) + TruncDiv(periodNs, 2);
    var k := TruncDiv(earliest + periodNs - 1, periodNs);
    MultipleHasNoRemainder(k, periodNs);
    HalfIsTruncated(periodNs);
    assert earliest >= 0 ==> k * periodNs >= earliest;
    FromNs(k * periodNs)
  }

  lemma HalfIsTruncated(p: int)
    requires p > 0
    ensures TruncDiv(p, 2) == p / 2
  {
  }

  datatype Step = Step(wake: Classification, nextDeadline: TimeSpec)

  function Advance(deadline: TimeSpec, now: TimeSpec, periodNs: int): Step {
    var wake := Classify(now, deadline, periodNs);
    Step(wake, if wake.verdict == Overrun then ResyncToGrid(now, periodNs) else AddNs(deadline, periodNs))
  }

  datatype ClampedPeriod = ClampedPeriod(ns: int, clamped: bool)

  /** The result is the point of [0, 10 periods] closest to the measurement, and the flag says
      whether that moved it. */
  function ClampMeasuredPeriod(measuredNs: int, periodNs: int): (p: ClampedPeriod)
    requires periodNs >= 0
    ensures 0 <= p.ns <= MAX_MEASURED_PERIODS * periodNs
    ensures p.clamped <==> p.ns != measuredNs
    ensures forall x :: 0 <= x <= MAX_MEASURED_PERIODS * periodNs ==>
                          Distance(p.ns, measuredNs) <= Distance(x, measuredNs)
  {
    var upper := MAX_MEASURED_PERIODS * periodNs;
    if measuredNs < 0 then ClampedPeriod(0, true)
    else if measuredNs > upper then ClampedPeriod(upper, true)
    else ClampedPeriod(measuredNs, false)
  }

  function Distance(a: int, b: int): int {
    if a < b then b - a else a - b
  }

  /** How many whole grid points the loop skips between a deadline and the one it picks next. */
  function DroppedSlots(deadline: int, next: int, periodNs: int): int
    requires periodNs > 0
  {
    (next - deadline) / periodNs - 1
  }

  /** One scheduling decision, in integers. The deadline stays on the grid and moves by at least one
      period and past the wake-up; a wake-up less than a period late drops nothing, and an overrun of
      lateness L drops floor(L/P) slots, or one more when the remainder leaves less than half a period
      to the next grid point. */
  lemma AdvanceOnGrid(deadline: TimeSpec, now: TimeSpec, p: int)
    requires p >= 2 && Normalised(deadline) && OnGrid(ToNs(deadline), p) && ToNs(now) >= 0
    ensures var step := Advance(deadline, now, p);
            var d, n, late := ToNs(deadline), ToNs(step.nextDeadline), ToNs(now) - ToNs(deadline);
            && Normalised(step.nextDeadline) && OnGrid(n, p)
            && n >= d + p && n > ToNs(now)
            && n - d == (1 + DroppedSlots(d, n, p)) * p
            && DroppedSlots(d, n, p) == SlotsLost(late, p)
  {
    var n := ToNs(Advance(deadline, now, p).nextDeadline);
    var lost := SlotsLost(ToNs(now) - ToNs(deadline), p);
    NextDeadlineValue(deadline, now, p);
    AddMultiple(ToNs(deadline), 1 + lost, p);
    MultipleHasNoRemainder(1 + lost, p);
    MulMonotone(1, 1 + lost, p);
  }

  /** The slots an arrival `late` nanoseconds after its deadline costs. */
  function SlotsLost(late: int, p: int): (n: nat)
    requires p >= 2
  {
    if late < p then 0 else late / p + (if late % p + p / 2 <= p then 0 else 1)
  }

  lemma NextDeadlineValue(deadline: TimeSpec, now: TimeSpec, p: int)
    requires p >= 2 && OnGrid(ToNs(deadline), p) && ToNs(now) >= 0
    ensures var n := ToNs(Advance(deadline, now, p).nextDeadline);
            n == ToNs(deadline) + (1 + SlotsLost(ToNs(now) - ToNs(deadline), p)) * p && n > ToNs(now)
  {
    var d, late := ToNs(deadline), ToNs(now) - ToNs(deadline);
    if late >= p {
      var skip := 1 + SlotsLost(late, p);
      SkipBracket(late, p);
      AddMultiple(d, skip, p);
      ResumePointIsUnique(ToNs(ResyncToGrid(now, p)), d + skip * p, ToNs(now), p);
    }
  }

  lemma SkipBracket(late: int, p: int)
    requires p >= 2 && late >= p
    ensures late + p / 2 <= (1 + SlotsLost(late, p)) * p < late + p / 2 + p
  {
    var q, r := late / p, late % p;
    assert late == q * p + r;
    var extra := if r + p / 2 <= p then 0 else 1;
    assert (1 + q + extra) * p == q * p + p + extra * p;
  }
}
