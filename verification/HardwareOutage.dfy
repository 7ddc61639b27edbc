/** Outage episodes: when read() gives up, and how often a reconnection is attempted before. An episode
    begins with the read() that finds reconnection_needed_ clear and receives nothing. */
module HardwareOutage {
  import opened Arithmetic
  import opened HardwareState

  function GraceNs(c: Config): int {
    TruncToInt(c.gracePeriod) * NS_PER_S
  }

  /** Counting whole seconds comes to the same as comparing nanoseconds with a whole number of seconds. */
  lemma ExpiresExactly(c: Config, start: int, now: int)
    requires start <= now
    ensures TimeoutExpired(c, start, now) <==> now - start >= GraceNs(c)
  {
    hide TruncDiv, TruncToInt;
    var q, g := TruncDiv(now - start, NS_PER_S), GraceSeconds(c);
    if q >= g {
      MulMonotone(g, q, NS_PER_S);
    } else {
      MulMonotone(q + 1, g, NS_PER_S);
    }
  }

  lemma SecondsAdd(a: int, b: int)
    ensures Seconds(a) + Seconds(b) == Seconds(a + b)
    ensures a <= b <==> Seconds(a) <= Seconds(b)
  {
  }

  /** Attempts at least a retry interval apart, all before the grace period is over. */
  predicate Spaced(c: Config, start: int, attempts: seq<int>) {
    && (forall i :: 0 <= i < |attempts| ==> start <= attempts[i] < start + GraceNs(c))
    && (forall i :: 0 < i < |attempts| ==> Seconds(attempts[i] - attempts[i - 1]) >= c.retryInterval)
  }

  predicate Reconnecting(pc: AsyncPc) {
    !pc.Resting? && !pc.InIO? && !pc.AfterResend?
  }

  /** The last of some attempts; the zero of the clock stands in if there is none. */
  function LatestAttempt(attempts: seq<int>): int {
    if attempts == [] then 0 else attempts[|attempts| - 1]
  }

  predicate OutageInv(c: Config, l: Link) {
    && l.outage.startTime <= l.now
    && (l.outage.failed ==> l.outage.needed && l.now - l.outage.startTime >= GraceNs(c))
    && (Reconnecting(l.pc) ==> !l.outage.failed)
    && Spaced(c, l.outage.startTime, l.outage.attempts)
    && l.outage.lastAttempt == LatestAttempt(l.outage.attempts)
  }

  lemma DecideKeepsOutage(c: Config, l: Link, started: bool, contextOk: bool)
    requires OutageInv(c, l) && l.pc.Resting?
    ensures OutageInv(c, Decide(c, l, started, contextOk))
  {
    hide TimeoutExpired, Seconds, GraceNs;
    ExpiresExactly(c, l.outage.startTime, l.now);
  }

  /** reconnectAll() touches nothing of the episode; its success path clears the two flags. */
  lemma ProceedLeavesEpisode(l: Link, o: Outcome, setOut: bool, setIn: bool)
    ensures var m := Proceed(l, o, setOut, setIn);
            && m.now == l.now && (Reconnecting(m.pc) ==> Reconnecting(l.pc))
            && m.outage == l.outage.(needed := l.outage.needed && !l.pc.Resolving?,
                                     failed := l.outage.failed && !l.pc.ClearingFailed?)
  {
    hide Over, PartlySet;
  }

  lemma OutageStep(c: Config, s: State, a: Action)
    requires OutageInv(c, s.link)
    ensures OutageInv(c, Step(c, s, a).link)
  {
    hide Decide, Proceed, Spaced, GraceNs, ReadArm, WriteArm, SwitchArm, RequestReset;
    EmptyIsSpaced(c, s.link.now);
    match a
    case UpdateAsyncIO(started, contextOk) =>
      if s.link.pc.Resting? {
        DecideKeepsOutage(c, s.link, started, contextOk);
      }
    case ReconnectStep(o, setOut, setIn) => ProceedLeavesEpisode(s.link, o, setOut, setIn);
    case _ =>
  }

  lemma EmptyIsSpaced(c: Config, start: int)
    ensures Spaced(c, start, [])
  {
  }

  lemma {:induction false} OutageInvHolds(c: Config, now: nat, run: seq<Action>)
    ensures OutageInv(c, Exec(c, now, run).link)
  {
    hide Step, GraceNs;
    if run != [] {
      OutageInvHolds(c, now, run[..|run| - 1]);
      OutageStep(c, Exec(c, now, run[..|run| - 1]), run[|run| - 1]);
    }
  }

  /** When the episode a read() belongs to began: now, if this is the read that opens it. */
  function EpisodeStart(l: Link): int {
    if l.outage.needed then l.outage.startTime else l.now
  }

  /** read() leaves by an exception exactly if its frame says power came on and the second reception throws. */
  lemma ReadThrowsExactly(c: Config, s: State, first: Reception, second: Second)
    ensures ReadVerdict(c, s, first, second) == LeftByException
            <==> && Usable(s.link) && first.Got? && first.frame.powerOn
                 && !s.arm.lastPowerOn && second.SecondThrew?
  {
  }

  /** read() returns ERROR exactly if it receives nothing and its episode is at least the truncated grace
      period old: never earlier, and the first failing read() that late does. */
  lemma ErrorExactlyWhenGraceIsOver(c: Config, now: nat, run: seq<Action>, first: Reception, second: Second)
    ensures var s := Exec(c, now, run);
            ReadVerdict(c, s, first, second) == ReturnError
            <==> !(Usable(s.link) && first.Got?) && s.link.now - EpisodeStart(s.link) >= GraceNs(c)
  {
    hide Exec, GraceNs, TimeoutExpired, Spaced;
    OutageInvHolds(c, now, run);
    var l := Exec(c, now, run).link;
    ExpiresExactly(c, EpisodeStart(l), l.now);
  }

  /** An episode's start does not move, and its attempts are only added to, until it is over. */
  lemma EpisodeKeepsItsStart(c: Config, s: State, a: Action)
    requires s.link.outage.needed && Step(c, s, a).link.outage.needed
    ensures var o, after := s.link.outage, Step(c, s, a).link.outage;
            after.startTime == o.startTime && o.attempts <= after.attempts
  {
    hide Proceed, TimeoutExpired, Seconds, ReadArm, WriteArm, SwitchArm, RequestReset;
    if a.ReconnectStep? {
      ProceedLeavesEpisode(s.link, a.outcome, a.setOut, a.setIn);
    }
  }

  lemma {:induction false} SpacedApart(c: Config, start: int, attempts: seq<int>, i: nat, j: nat)
    requires Spaced(c, start, attempts) && i <= j < |attempts|
    ensures Seconds(attempts[j] - attempts[i]) >= (j - i) as real * c.retryInterval
    decreases j - i
  {
    if i < j {
      SpacedApart(c, start, attempts, i, j - 1);
      assert Seconds(attempts[j] - attempts[j - 1]) >= c.retryInterval;
      hide GraceNs, Seconds, Spaced;
      AddInterval(attempts[j - 1] - attempts[i], attempts[j] - attempts[j - 1], j - i, c.retryInterval);
    } else {
      hide GraceNs, Spaced;
      assert Seconds(0) == 0.0;
    }
  }

  lemma AddInterval(a: int, b: int, n: nat, interval: real)
    requires n > 0 && Seconds(a) >= (n - 1) as real * interval && Seconds(b) >= interval
    ensures Seconds(a + b) >= n as real * interval
  {
    SecondsAdd(a, b);
    hide Seconds;
    assert n as real * interval == (n - 1) as real * interval + interval;
  }

  /** Attempts of one episode start within its grace period, any two of them as many retry intervals apart
      as they are attempts apart; so with m attempts, m - 1 intervals fit into the grace period. */
  lemma {:induction false} AttemptsAreThrottled(c: Config, now: nat, run: seq<Action>)
    ensures var l := Exec(c, now, run).link;
            && (forall k :: 0 <= k < |l.outage.attempts| ==>
                  l.outage.startTime <= l.outage.attempts[k] < l.outage.startTime + GraceNs(c))
            && (forall i, j :: 0 <= i <= j < |l.outage.attempts| ==>
                  Seconds(l.outage.attempts[j] - l.outage.attempts[i]) >= (j - i) as real * c.retryInterval)
            && (l.outage.attempts != [] ==> (|l.outage.attempts| - 1) as real * c.retryInterval < TruncToInt(c.gracePeriod) as real)
  {
    hide Exec, GraceNs, TruncToInt, Seconds;
    OutageInvHolds(c, now, run);
    var l := Exec(c, now, run).link;
    forall i, j | 0 <= i <= j < |l.outage.attempts|
      ensures Seconds(l.outage.attempts[j] - l.outage.attempts[i]) >= (j - i) as real * c.retryInterval
    {
      SpacedApart(c, l.outage.startTime, l.outage.attempts, i, j);
    }
    if l.outage.attempts != [] {
      SpacedApart(c, l.outage.startTime, l.outage.attempts, 0, |l.outage.attempts| - 1);
      ShorterThanGrace(c, l.outage.attempts[|l.outage.attempts| - 1] - l.outage.attempts[0]);
    }
  }

  lemma ShorterThanGrace(c: Config, ns: int)
    requires ns < GraceNs(c)
    ensures Seconds(ns) < TruncToInt(c.gracePeriod) as real
  {
    hide TruncToInt;
    assert GraceNs(c) as real == TruncToInt(c.gracePeriod) as real * 1000000000.0;
  }

  // ----- that attempts are made -----

  /** A round of updateAsyncIO() that gets as far as the reconnection: the async thread is at its start, the
      context is alive, the session absent or started (or without its input recipe), an episode open. */
  predicate Effective(s: State, a: Action) {
    && a.UpdateAsyncIO? && a.contextOk && s.link.pc.Resting? && s.link.outage.needed
    && (s.link.client.session == Null || a.started || !s.link.client.inRecipe)
  }

  lemma EffectiveIsRound(s: State, a: Action)
    ensures Effective(s, a) ==> a.UpdateAsyncIO?
  {
  }

  /** A round attempts a reconnection exactly if it gets that far, nobody has given up, the grace period is
      not over and the last attempt of the episode is at least a retry interval ago; it gives up exactly if
      the grace period is over. No other step does either. */
  lemma AttemptsExactly(c: Config, now: nat, run: seq<Action>, a: Action)
    ensures var s, t := Exec(c, now, run), Step(c, Exec(c, now, run), a).link.outage;
            var o, age := s.link.outage, s.link.now - s.link.outage.startTime;
            && (a.UpdateAsyncIO? ==>
                  t.attempts == o.attempts
                    + if Effective(s, a) && !o.failed && age < GraceNs(c)
                         && Seconds(s.link.now - LatestAttempt(o.attempts)) >= c.retryInterval
                      then [s.link.now] else [])
            && (a.UpdateAsyncIO? ==> (t.failed <==> o.failed || (Effective(s, a) && age >= GraceNs(c))))
            && (!a.UpdateAsyncIO? ==>
                  && (t.failed ==> o.failed)
                  && (t.attempts == o.attempts || (a.Read? && t.attempts == [] && !o.needed && t.needed)))
  {
    OutageInvHolds(c, now, run);
    hide Exec, Step, Seconds, GraceNs, Spaced, Effective;
    AttemptsFrom(c, Exec(c, now, run), a);
  }

  lemma AttemptsFrom(c: Config, s: State, a: Action)
    requires OutageInv(c, s.link)
    ensures var t := Step(c, s, a).link.outage;
            var o, age := s.link.outage, s.link.now - s.link.outage.startTime;
            && (a.UpdateAsyncIO? ==>
                  t.attempts == o.attempts
                    + if Effective(s, a) && !o.failed && age < GraceNs(c)
                         && Seconds(s.link.now - LatestAttempt(o.attempts)) >= c.retryInterval
                      then [s.link.now] else [])
            && (a.UpdateAsyncIO? ==> (t.failed <==> o.failed || (Effective(s, a) && age >= GraceNs(c))))
            && (!a.UpdateAsyncIO? ==>
                  && (t.failed ==> o.failed)
                  && (t.attempts == o.attempts || (a.Read? && t.attempts == [] && !o.needed && t.needed)))
  {
    hide Seconds, GraceNs, TimeoutExpired, Spaced, ReadArm, WriteArm, SwitchArm, RequestReset, Proceed;
    ExpiresExactly(c, s.link.outage.startTime, s.link.now);
    if a.ReconnectStep? {
      ProceedLeavesEpisode(s.link, a.outcome, a.setOut, a.setIn);
    }
  }

  /** When the rounds of the current episode ran that got as far as the reconnection. */
  function Rounds(c: Config, now: nat, run: seq<Action>): seq<int> {
    if run == [] then [] else
    var front, a := run[..|run| - 1], run[|run| - 1];
    var s := Exec(c, now, front);
    if !s.link.outage.needed && Step(c, s, a).link.outage.needed then []
    else if Effective(s, a) then Rounds(c, now, front) + [s.link.now]
    else Rounds(c, now, front)
  }

  /** Times with no two neighbours more than `most` seconds apart. */
  predicate Dense(times: seq<int>, most: real) {
    forall i :: 0 < i < |times| ==> Seconds(times[i] - times[i - 1]) <= most
  }

  /** From an episode's start until now, no stretch of more than d seconds without a round. */
  predicate RoundsWithin(start: int, rounds: seq<int>, now: int, d: real) {
    if rounds == [] then Seconds(now - start) <= d
    else Seconds(rounds[0] - start) <= d && Dense(rounds, d) && Seconds(now - rounds[|rounds| - 1]) <= d
  }

  /** What the attempts owe to the rounds so far: none that was due has been passed over. */
  predicate Prompt(c: Config, l: Link, rounds: seq<int>, d: real) {
    var o := l.outage;
    && (forall i :: 0 <= i < |rounds| ==> o.startTime <= rounds[i] <= l.now)
    && (o.attempts == [] ==> forall i :: 0 <= i < |rounds| ==> Seconds(rounds[i]) < c.retryInterval)
    && (o.attempts != [] ==>
          && rounds != [] && 0 <= rounds[|rounds| - 1] - LatestAttempt(o.attempts)
          && (rounds[|rounds| - 1] == LatestAttempt(o.attempts)
              || Seconds(rounds[|rounds| - 1] - LatestAttempt(o.attempts)) < c.retryInterval)
          && (Seconds(o.startTime) >= c.retryInterval ==> o.attempts[0] == rounds[0])
          && Dense(o.attempts, c.retryInterval + d))
  }

  /** An effective round at l.now keeps the promise, whether it attempts or finds it too early. */
  lemma {:induction false} PromptRound(c: Config, l: Link, rounds: seq<int>, d: real, attempted: bool)
    requires Prompt(c, l, rounds, d) && c.retryInterval >= 0.0 && d >= 0.0 && l.outage.startTime <= l.now
    requires rounds != [] ==> Seconds(l.now - rounds[|rounds| - 1]) <= d
    requires attempted == (Seconds(l.now - LatestAttempt(l.outage.attempts)) >= c.retryInterval)
    ensures var o := l.outage.(attempts := l.outage.attempts + if attempted then [l.now] else []);
            Prompt(c, l.(outage := o), rounds + [l.now], d)
  {
    var attempts := l.outage.attempts;
    if attempts != [] {
      var last := rounds[|rounds| - 1];
      SecondsAdd(last - LatestAttempt(attempts), l.now - last);
    }
    if rounds != [] {
      SecondsAdd(l.outage.startTime, rounds[0]);
    }
    hide Seconds;
  }

  lemma RoundsBefore(start: int, rounds: seq<int>, earlier: int, now: int, d: real)
    requires earlier <= now
    ensures RoundsWithin(start, rounds, now, d) ==> RoundsWithin(start, rounds, earlier, d)
    ensures RoundsWithin(start, rounds + [earlier], now, d) ==>
              RoundsWithin(start, rounds, earlier, d) && (rounds != [] ==> Seconds(earlier - rounds[|rounds| - 1]) <= d)
  {
    SecondsAdd(earlier - start, now - start);
    if rounds != [] {
      var longer := rounds + [earlier];
      assert forall i :: 0 <= i < |rounds| ==> longer[i] == rounds[i];
      assert longer[|rounds|] == earlier;
      SecondsAdd(earlier - rounds[|rounds| - 1], now - rounds[|rounds| - 1]);
      hide Seconds;
    }
  }

  lemma EpisodeGoesOn(c: Config, s: State, a: Action)
    requires OutageInv(c, s.link) && s.link.outage.needed
    requires var t := Step(c, s, a).link; t.outage.needed && !t.outage.failed
    ensures !s.link.outage.failed && s.link.now <= Step(c, s, a).link.now
  {
    hide Spaced, GraceNs, TimeoutExpired, Seconds, ReadArm, WriteArm, SwitchArm, RequestReset, Proceed;
    if a.ReconnectStep? {
      ProceedLeavesEpisode(s.link, a.outcome, a.setOut, a.setIn);
    }
  }

  /** Any other step keeps it too. */
  lemma {:induction false} PromptStep(c: Config, l: Link, m: Link, rounds: seq<int>, d: real, effective: bool)
    requires Prompt(c, l, rounds, d) && c.retryInterval >= 0.0 && d >= 0.0
    requires l.outage.startTime == m.outage.startTime <= l.now <= m.now
    requires var due := Seconds(l.now - LatestAttempt(l.outage.attempts)) >= c.retryInterval;
             m.outage.attempts == l.outage.attempts + if effective && due then [l.now] else []
    requires effective && rounds != [] ==> Seconds(l.now - rounds[|rounds| - 1]) <= d
    ensures Prompt(c, m, if effective then rounds + [l.now] else rounds, d)
  {
    if effective {
      PromptRound(c, l, rounds, d, Seconds(l.now - LatestAttempt(l.outage.attempts)) >= c.retryInterval);
    }
    hide Seconds, Dense;
  }

  /** One more step of an episode that is neither over nor given up. */
  lemma {:induction false} PromptNext(c: Config, s: State, a: Action, rounds: seq<int>, d: real)
    requires c.retryInterval >= 0.0 && d >= 0.0 && OutageInv(c, s.link) && Prompt(c, s.link, rounds, d)
    requires var m := Step(c, s, a).link.outage; s.link.outage.needed && m.needed && !m.failed
    requires Effective(s, a) && rounds != [] ==> Seconds(s.link.now - rounds[|rounds| - 1]) <= d
    ensures Prompt(c, Step(c, s, a).link, if Effective(s, a) then rounds + [s.link.now] else rounds, d)
  {
    AttemptsFrom(c, s, a);
    EpisodeGoesOn(c, s, a);
    EpisodeKeepsItsStart(c, s, a);
    EffectiveIsRound(s, a);
    hide Step, Prompt, Seconds, GraceNs, Spaced, Effective;
    PromptStep(c, s.link, Step(c, s, a).link, rounds, d, Effective(s, a));
  }

  lemma {:induction false} PromptHolds(c: Config, now: nat, run: seq<Action>, d: real)
    requires c.retryInterval >= 0.0 && d >= 0.0
    requires var l := Exec(c, now, run).link;
             l.outage.needed && !l.outage.failed && RoundsWithin(l.outage.startTime, Rounds(c, now, run), l.now, d)
    ensures Prompt(c, Exec(c, now, run).link, Rounds(c, now, run), d)
  {
    if run != [] {
      var front, a := run[..|run| - 1], run[|run| - 1];
      var s := Exec(c, now, front);
      hide Step, RoundsWithin, Seconds, GraceNs, Effective, Spaced;
      if s.link.outage.needed {
        OutageInvHolds(c, now, front);
        EpisodeGoesOn(c, s, a);
        EpisodeKeepsItsStart(c, s, a);
        RoundsBefore(s.link.outage.startTime, Rounds(c, now, front), s.link.now, Exec(c, now, run).link.now, d);
        PromptHolds(c, now, front, d);
        hide Prompt;
        PromptNext(c, s, a, Rounds(c, now, front), d);
      } else {
        AttemptsExactly(c, now, front, a);
      }
    }
  }

  lemma {:induction false} DenseSpan(times: seq<int>, most: real, i: nat, j: nat)
    requires Dense(times, most) && i <= j < |times|
    ensures Seconds(times[j] - times[i]) <= (j - i) as real * most
    decreases j - i
  {
    if i < j {
      DenseSpan(times, most, i, j - 1);
      SecondsAdd(times[j - 1] - times[i], times[j] - times[j - 1]);
      hide Seconds;
      assert (j - i) as real * most == (j - 1 - i) as real * most + most;
    }
  }

  /** Retries come often. While an episode is neither over nor given up, and rounds that get as far as the
      reconnection come at most d seconds apart, attempts come at most the retry interval and d apart, the
      last of them no longer ago than that. */
  lemma {:induction false} RetriesComeOften(c: Config, now: nat, run: seq<Action>, d: real)
    requires c.retryInterval >= 0.0 && d >= 0.0
    requires var l := Exec(c, now, run).link;
             l.outage.needed && !l.outage.failed && RoundsWithin(l.outage.startTime, Rounds(c, now, run), l.now, d)
    ensures var l := Exec(c, now, run).link;
            var o := l.outage;
            && Dense(o.attempts, c.retryInterval + d)
            && (o.attempts != [] ==> Seconds(l.now - LatestAttempt(o.attempts)) <= c.retryInterval + d)
            && (o.attempts != [] && Seconds(o.startTime) >= c.retryInterval ==> Seconds(o.attempts[0] - o.startTime) <= d)
            && (o.attempts == [] && Seconds(o.startTime) >= c.retryInterval ==> Seconds(l.now - o.startTime) <= d)
  {
    hide Exec, Rounds, RoundsWithin, Prompt, Seconds, Dense, LatestAttempt;
    PromptHolds(c, now, run, d);
    PromptMeans(c, Exec(c, now, run).link, Rounds(c, now, run), d);
  }

  lemma {:induction false} PromptMeans(c: Config, l: Link, rounds: seq<int>, d: real)
    requires Prompt(c, l, rounds, d) && c.retryInterval >= 0.0 && d >= 0.0
    requires RoundsWithin(l.outage.startTime, rounds, l.now, d)
    ensures var o := l.outage;
            && Dense(o.attempts, c.retryInterval + d)
            && (o.attempts != [] ==> Seconds(l.now - LatestAttempt(o.attempts)) <= c.retryInterval + d)
            && (o.attempts != [] && Seconds(o.startTime) >= c.retryInterval ==> Seconds(o.attempts[0] - o.startTime) <= d)
            && (o.attempts == [] && Seconds(o.startTime) >= c.retryInterval ==> Seconds(l.now - o.startTime) <= d)
  {
    if rounds != [] {
      var last := rounds[|rounds| - 1];
      SecondsAdd(l.outage.startTime, rounds[0]);
      if l.outage.attempts != [] {
        SecondsAdd(last - LatestAttempt(l.outage.attempts), l.now - last);
      }
    }
    hide Seconds, Dense;
  }

  /** The time that m attempts last for. */
  function Reach(m: nat, most: real, d: real): real {
    m as real * most + d
  }

  /** So, on a clock that has run for a retry interval when the episode begins, m attempts are made in an
      episode no longer than m such stretches and d: none of its time goes by without them. */
  lemma {:induction false} AttemptsKeepUp(c: Config, now: nat, run: seq<Action>, d: real)
    requires c.retryInterval >= 0.0 && d >= 0.0
    requires var l := Exec(c, now, run).link;
             && l.outage.needed && !l.outage.failed && Seconds(l.outage.startTime) >= c.retryInterval
             && RoundsWithin(l.outage.startTime, Rounds(c, now, run), l.now, d)
    ensures var l := Exec(c, now, run).link;
            Seconds(l.now - l.outage.startTime) <= Reach(|l.outage.attempts|, c.retryInterval + d, d)
  {
    hide Exec, Rounds, RoundsWithin, Seconds, Dense, LatestAttempt, Reach;
    RetriesComeOften(c, now, run, d);
    SpanOfAttempts(c, Exec(c, now, run).link, c.retryInterval + d, d);
  }

  lemma {:induction false} SpanOfAttempts(c: Config, l: Link, most: real, d: real)
    requires Dense(l.outage.attempts, most)
    requires l.outage.attempts == [] ==> Seconds(l.now - l.outage.startTime) <= d
    requires l.outage.attempts != [] ==>
               && Seconds(l.outage.attempts[0] - l.outage.startTime) <= d
               && Seconds(l.now - LatestAttempt(l.outage.attempts)) <= most
    ensures Seconds(l.now - l.outage.startTime) <= Reach(|l.outage.attempts|, most, d)
  {
    var attempts, start := l.outage.attempts, l.outage.startTime;
    if attempts != [] {
      var top := |attempts| - 1;
      DenseSpan(attempts, most, 0, top);
      SecondsAdd(attempts[0] - start, attempts[top] - attempts[0]);
      SecondsAdd(attempts[top] - start, l.now - attempts[top]);
      hide Seconds, Dense;
      assert (top + 1) as real * most == top as real * most + most;
    }
  }
}
