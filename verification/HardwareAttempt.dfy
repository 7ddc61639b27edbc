/** One reconnectAll() from beginning to end, and one round of updateAsyncIO(), as runs of HardwareState in
    which the async thread alone moves; and what follows for every sequence of calls on the object. */
module HardwareAttempt {
  import opened Wrappers
  import opened ModeSwitch
  import opened RobotJoints
  import opened HardwareState
  import HardwareLink
  import HardwareOutage
  import HardwareCommands

  /** How the calls of one reconnectAll() end: the wait, the making of the session, its connection, its
      initialisation with the recipes a failing one got to set, and the control channel after it. */
  datatype Attempt = Attempt(
    pause: Outcome, make: Outcome, connect: Outcome, init: Outcome, setOut: bool, setIn: bool, driver: Driver)

  function OutcomeAt(pc: AsyncPc, t: Attempt): Outcome {
    match pc
    case Pausing => t.pause
    case Creating => t.make
    case Connecting => t.connect
    case Initialising => t.init
    case _ => Done
  }

  predicate Rebuilding(pc: AsyncPc) {
    !pc.Resting? && !pc.InIO? && !pc.AfterResend? && !pc.CheckingDriver? && !pc.Resolving? && !pc.ClearingFailed?
  }

  function StoresLeft(pc: AsyncPc): nat {
    match pc
    case Raising => 10 case TearingDown => 9 case DroppingOutput => 8 case DroppingInput => 7 case Pausing => 6
    case Creating => 5 case Connecting => 4 case Initialising => 3 case Dropping => 2 case Lowering(_) => 1
    case _ => 0
  }

  lemma StoresRunOut(l: Link, o: Outcome, setOut: bool, setIn: bool)
    requires Rebuilding(l.pc)
    ensures StoresLeft(Proceed(l, o, setOut, setIn).pc) < StoresLeft(l.pc)
  {
  }

  /** The stores of one reconnectAll(), in order, up to the lowering of the flag or the exception that
      leaves it raised. */
  function Stores(l: Link, t: Attempt): Link
    decreases StoresLeft(l.pc)
  {
    if Rebuilding(l.pc) then
      StoresRunOut(l, OutcomeAt(l.pc, t), t.setOut, t.setIn);
      Stores(Proceed(l, OutcomeAt(l.pc, t), t.setOut, t.setIn), t)
    else l
  }

  lemma Follow(l: Link, t: Attempt) returns (m: Link)
    requires Rebuilding(l.pc)
    ensures m == Proceed(l, OutcomeAt(l.pc, t), t.setOut, t.setIn) && Stores(l, t) == Stores(m, t)
  {
    m := Proceed(l, OutcomeAt(l.pc, t), t.setOut, t.setIn);
  }

  lemma FollowTeardown(l: Link, t: Attempt)
    requires l.pc.Raising?
    ensures Stores(l, t)
            == Stores(Link(Pausing, Client(Null, false, false, true), l.outage,
                              l.past.(neededAtRaise := l.outage.needed, readsSince := 0), l.now), t)
  {
    hide Stores, Caught, Over;
    var m := Follow(l, t);
    m := Follow(m, t);
    m := Follow(m, t);
    m := Follow(m, t);
  }

  lemma FollowPause(l: Link, t: Attempt)
    requires l.pc.Pausing? && l.client.session == Null
    ensures Stores(l, t) == Stores(l.(pc := if t.pause.Done? then Creating else Dropping), t)
  {
    hide Stores, Caught, Over;
    var m := Follow(l, t);
    if !t.pause.Done? {
      m := Follow(l.(pc := Dropping), t);
    }
  }

  lemma Ends(l: Link, t: Attempt)
    requires !Rebuilding(l.pc)
    ensures Stores(l, t) == l
  {
  }

  predicate Rebuilt(t: Attempt) {
    t.pause.Done? && t.make.Done? && t.connect.Done? && t.init.Done?
  }

  /** An exception that is not an EliteException leaves the try block, and with it reconnectAll(). */
  predicate Strays(t: Attempt) {
    t.pause.Done? &&
    (t.make == Threw(false) || (t.make.Done? &&
    (t.connect == Threw(false) || (t.connect.Done? && t.init == Threw(false)))))
  }

  /** What an attempt comes to, given whether it rebuilt the session and whether an exception escaped. */
  predicate StoresMean(l: Link, t: Attempt, rebuilt: bool, strays: bool) {
    var m := Stores(l, t);
    && m.outage == l.outage
    && (rebuilt ==> m.client == Client(Ready, true, true, false)
                    && m.pc == CheckingDriver)
    && (strays ==> m.pc == Resting && m.client.session != Ready && m.client.reconnecting)
    && (!rebuilt && !strays ==> m.pc == Resting && m.client.session == Null && !m.client.reconnecting)
  }

  lemma FromDropping(l: Link, t: Attempt)
    requires l.pc.Dropping?
    ensures Stores(l, t)
            == Link(Resting, l.client.(session := Null, reconnecting := false), l.outage, Over(l.past), l.now)
  {
    hide Stores, Over;
    var m := Follow(l, t);
    m := Follow(m, t);
    Ends(m, t);
  }

  lemma FromInitialising(l: Link, t: Attempt)
    requires l.pc.Initialising? && l.client.session == Connected && l.client.reconnecting
    ensures StoresMean(l, t, t.init.Done?, t.init == Threw(false))
  {
    hide Stores, Over;
    var m := Follow(l, t);
    if t.init.Done? {
      m := Follow(m, t);
      Ends(m, t);
    } else if t.init == Threw(false) {
      Ends(m, t);
    } else {
      FromDropping(m, t);
    }
  }

  lemma FromConnecting(l: Link, t: Attempt)
    requires l.pc.Connecting? && l.client.session == Created && l.client.reconnecting
    ensures StoresMean(l, t, t.connect.Done? && t.init.Done?,
                         t.connect == Threw(false) || (t.connect.Done? && t.init == Threw(false)))
  {
    hide Stores, Over;
    var m := Follow(l, t);
    if t.connect.Done? {
      FromInitialising(m, t);
    } else if t.connect == Threw(false) {
      Ends(m, t);
    } else {
      FromDropping(m, t);
    }
  }

  lemma FromCreating(l: Link, t: Attempt)
    requires l.pc.Creating? && l.client.session == Null && l.client.reconnecting
    ensures StoresMean(l, t, t.make.Done? && t.connect.Done? && t.init.Done?,
                         t.make == Threw(false) || (t.make.Done? &&
                         (t.connect == Threw(false) || (t.connect.Done? && t.init == Threw(false)))))
  {
    hide Stores, Over;
    var m := Follow(l, t);
    if t.make.Done? {
      FromConnecting(m, t);
    } else if t.make == Threw(false) {
      Ends(m, t);
    } else {
      FromDropping(l.(pc := Dropping), t);
      var n := Follow(l.(pc := Dropping), t);
      if t.make.Threw? {
        FromDropping(m, t);
      }
    }
  }

  lemma StoresResult(l: Link, t: Attempt)
    requires l.pc.Raising?
    ensures StoresMean(l, t, Rebuilt(t), Strays(t))
  {
    hide Stores, Over;
    FollowTeardown(l, t);
    var torn := Link(Pausing, Client(Null, false, false, true), l.outage,
                     l.past.(neededAtRaise := l.outage.needed, readsSince := 0), l.now);
    FollowPause(torn, t);
    if t.pause.Done? {
      FromCreating(torn.(pc := Creating), t);
    } else {
      FromDropping(torn.(pc := Dropping), t);
    }
  }

  /** The stores and the check of the control channel. */
  function Attempted(l: Link, t: Attempt): Link {
    CheckDriver(Stores(l, t), t.driver)
  }

  /** How reconnectAll() ends: Escaped is an exception it does not handle. */
  datatype Ending = ReturnTrue | ReturnFalse | Escaped

  function EndingOf(t: Attempt): Ending {
    if Strays(t) || (Rebuilt(t) && t.driver.ConnectThrew?) then Escaped
    else if Rebuilt(t) && !t.driver.ContextGone? then ReturnTrue
    else ReturnFalse
  }

  /** What reconnectAll() leaves behind, by how it ends. True: a whole session, the flag clear. False: the
      flag clear, and no session exactly if some call of the rebuilding failed; if the context was gone
      after it the session is whole. An exception that escapes the rebuilding leaves the flag raised and no
      whole session; one that escapes the control channel a whole session and the flag clear. The episode is
      not touched in any case. */
  lemma AttemptResult(l: Link, t: Attempt)
    requires l.pc.Raising?
    ensures var m := Attempted(l, t);
            && m.outage == l.outage
            && m.pc == (if EndingOf(t) == ReturnTrue then Resolving else Resting)
            && (EndingOf(t) == ReturnTrue ==> m.client == Client(Ready, true, true, false))
            && (EndingOf(t) == ReturnFalse ==>
                  && !m.client.reconnecting
                  && (m.client.session == Null <==> !Rebuilt(t))
                  && (Rebuilt(t) ==> m.client == Client(Ready, true, true, false)))
            && (EndingOf(t) == Escaped ==>
                  if Strays(t) then m.client.reconnecting && m.client.session != Ready
                  else m.client == Client(Ready, true, true, false))
  {
    hide Stores;
    StoresResult(l, t);
  }

  /** The two attempts that do not keep the promise of a null session and a clear flag: one returns false
      with a whole session, the other leaves the flag raised. */
  lemma BrokenPromises(l: Link) returns (whole: Attempt, raised: Attempt)
    requires l.pc.Raising?
    ensures EndingOf(whole) == ReturnFalse && Attempted(l, whole).client == Client(Ready, true, true, false)
    ensures EndingOf(raised) == Escaped && Attempted(l, raised).client.reconnecting
  {
    whole := Attempt(Done, Done, Done, Done, true, true, ContextGone);
    raised := Attempt(Done, Done, Threw(false), Done, true, true, AlreadyConnected);
    AttemptResult(l, whole);
    AttemptResult(l, raised);
    hide Stores, Attempted;
  }

  /** The two stores after a successful attempt. */
  function Resolved(l: Link): Link {
    if l.pc.Resolving? then l.(outage := l.outage.(needed := false, failed := false), pc := Resting) else l
  }

  /** A reconnectAll() with its caller's two stores, step by step. */
  function Reconnected(c: Config, s: State, t: Attempt): State
    decreases StoresLeft(s.link.pc)
  {
    if Rebuilding(s.link.pc) then
      StoresRunOut(s.link, OutcomeAt(s.link.pc, t), t.setOut, t.setIn);
      Reconnected(c, Step(c, s, ReconnectStep(OutcomeAt(s.link.pc, t), t.setOut, t.setIn)), t)
    else
      var checked := Step(c, s, CheckDriverStep(t.driver));
      if checked.link.pc.Resolving? then
        Step(c, Step(c, checked, ReconnectStep(Done, false, false)), ReconnectStep(Done, false, false))
      else checked
  }

  lemma {:induction false} ReconnectedIs(c: Config, s: State, t: Attempt)
    ensures Reconnected(c, s, t)
            == State(Resolved(Attempted(s.link, t)),
                     if Stores(s.link, t).pc.CheckingDriver? && t.driver.Reconnected? then RequestReset(s.arm) else s.arm)
    decreases StoresLeft(s.link.pc)
  {
    if Rebuilding(s.link.pc) {
      StoresRunOut(s.link, OutcomeAt(s.link.pc, t), t.setOut, t.setIn);
      ReconnectedIs(c, Step(c, s, ReconnectStep(OutcomeAt(s.link.pc, t), t.setOut, t.setIn)), t);
      hide Proceed, CheckDriver, Resolved, RequestReset;
    } else {
      hide Proceed, RequestReset, Stores;
      Ends(s.link, t);
      if CheckDriver(s.link, t.driver).pc.Resolving? {
        ResolvingSteps(c, Step(c, s, CheckDriverStep(t.driver)));
      }
    }
  }

  lemma ResolvingSteps(c: Config, s: State)
    requires s.link.pc.Resolving?
    ensures Step(c, Step(c, s, ReconnectStep(Done, false, false)), ReconnectStep(Done, false, false))
            == s.(link := Resolved(s.link))
  {
  }

  // ----- one round of the async thread -----

  /** What the environment does in one round: whether the session says it is started, whether the context
      is alive, the outcomes of an attempt, whether a resend is asked for, whether the I/O gets to its end. */
  datatype Round = Round(started: bool, contextOk: bool, attempt: Attempt, resend: bool, reached: bool)

  function AsyncRound(c: Config, s: State, r: Round): State {
    var decided := Step(c, s, UpdateAsyncIO(r.started, r.contextOk));
    if decided.link.pc.Raising? then Reconnected(c, decided, r.attempt)
    else if decided.link.pc.InIO? then
      Step(c, if r.resend then Step(c, decided, Resend) else decided, EndIO(r.reached))
    else decided
  }

  /** The three kinds of round: an attempt, I/O, or nothing but perhaps giving up. */
  lemma RoundCases(c: Config, s: State, r: Round)
    requires s.link.pc.Resting?
    ensures var d := Decide(c, s.link, r.started, r.contextOk);
            AsyncRound(c, s, r) ==
            if d.pc.Raising? then
              State(Resolved(Attempted(d, r.attempt)),
                    if Rebuilt(r.attempt) && r.attempt.driver.Reconnected? then RequestReset(s.arm) else s.arm)
            else if d.pc.InIO? then
              State(FinishIO(d, r.reached), if r.resend then RequestReset(s.arm) else s.arm)
            else s.(link := d)
  {
    hide Reconnected, Resolved, Attempted, Stores, Decide, RequestReset;
    var d := Decide(c, s.link, r.started, r.contextOk);
    ReconnectedIs(c, s.(link := d), r.attempt);
    if d.pc.Raising? {
      StoresResult(d, r.attempt);
    }
  }

  /** A round that attempts ends the episode exactly if the attempt returned true; a failed one leaves it as
      the decision did, and either way the async thread is back at its start. */
  lemma AttemptEndsEpisode(c: Config, s: State, r: Round)
    requires s.link.pc.Resting? && Step(c, s, UpdateAsyncIO(r.started, r.contextOk)).link.pc.Raising?
    ensures var o, l := Step(c, s, UpdateAsyncIO(r.started, r.contextOk)).link.outage, AsyncRound(c, s, r).link;
            && l.pc.Resting?
            && (EndingOf(r.attempt) == ReturnTrue ==>
                  !l.outage.needed && !l.outage.failed && l.client == Client(Ready, true, true, false))
            && (EndingOf(r.attempt) != ReturnTrue ==> l.outage == o)
  {
    hide Attempted, Stores, Decide, AsyncRound, EndingOf, RequestReset;
    RoundCases(c, s, r);
    AttemptResult(Decide(c, s.link, r.started, r.contextOk), r.attempt);
  }

  predicate IsAsync(a: Action) {
    a.UpdateAsyncIO? || a.ReconnectStep? || a.CheckDriverStep? || a.Resend? || a.EndIO?
  }

  /** longer is run followed by actions of the async thread. */
  predicate ByAsyncAlone(run: seq<Action>, longer: seq<Action>) {
    run <= longer && forall i :: |run| <= i < |longer| ==> IsAsync(longer[i])
  }

  /** An attempt, performed in one go, is a run of the state machine in which the async thread alone moves. */
  lemma {:induction false} AttemptedIsARun(c: Config, now: nat, run: seq<Action>, t: Attempt) returns (longer: seq<Action>)
    ensures ByAsyncAlone(run, longer) && Exec(c, now, longer) == Reconnected(c, Exec(c, now, run), t)
    decreases StoresLeft(Exec(c, now, run).link.pc)
  {
    hide Exec, Step;
    var s := Exec(c, now, run);
    if Rebuilding(s.link.pc) {
      StoresRunOut(s.link, OutcomeAt(s.link.pc, t), t.setOut, t.setIn);
      var next := Next(c, now, run, ReconnectStep(OutcomeAt(s.link.pc, t), t.setOut, t.setIn));
      ReconnectStepIs(c, s, OutcomeAt(s.link.pc, t), t.setOut, t.setIn);
      longer := AttemptedIsARun(c, now, next, t);
    } else {
      longer := Next(c, now, run, CheckDriverStep(t.driver));
      if Exec(c, now, longer).link.pc.Resolving? {
        longer := Next(c, now, longer, ReconnectStep(Done, false, false));
        longer := Next(c, now, longer, ReconnectStep(Done, false, false));
      }
    }
  }

  lemma ReconnectStepIs(c: Config, s: State, o: Outcome, setOut: bool, setIn: bool)
    ensures Step(c, s, ReconnectStep(o, setOut, setIn)) == s.(link := Proceed(s.link, o, setOut, setIn))
  {
  }

  lemma RoundIsARun(c: Config, now: nat, run: seq<Action>, r: Round) returns (longer: seq<Action>)
    ensures ByAsyncAlone(run, longer) && Exec(c, now, longer) == AsyncRound(c, Exec(c, now, run), r)
  {
    hide Exec, Step, Reconnected;
    longer := Next(c, now, run, UpdateAsyncIO(r.started, r.contextOk));
    var pc := Exec(c, now, longer).link.pc;
    if pc.Raising? {
      longer := AttemptedIsARun(c, now, longer, r.attempt);
    } else if pc.InIO? {
      if r.resend {
        longer := Next(c, now, longer, Resend);
      }
      longer := Next(c, now, longer, EndIO(r.reached));
    }
  }

  // ----- sequences of calls -----

  /** What happens to the object: time passes, a call of the realtime thread, or a round of the async one. */
  datatype Call =
    | Passes(ns: nat)
    | Reads(first: Reception, driverConnected: bool, second: Second)
    | Commands(position: Joints, velocity: Joints)
    | Switches(starts: seq<Mode>, stops: seq<Mode>)
    | Writes(freedriveActivated: bool)
    | Works(round: Round)

  function AfterCall(c: Config, s: State, call: Call): State {
    match call
    case Passes(ns) => Step(c, s, Tick(ns))
    case Reads(first, driverConnected, second) => Step(c, s, Read(first, driverConnected, second))
    case Commands(position, velocity) => Step(c, s, UpdateControllers(position, velocity))
    case Switches(starts, stops) => Step(c, s, SwitchModes(starts, stops))
    case Writes(freedriveActivated) => Step(c, s, Write(freedriveActivated))
    case Works(round) => AsyncRound(c, s, round)
  }

  function AfterCalls(c: Config, now: nat, calls: seq<Call>): State {
    if calls == [] then Configured(now) else AfterCall(c, AfterCalls(c, now, calls[..|calls| - 1]), calls[|calls| - 1])
  }

  lemma CallIsARun(c: Config, now: nat, run: seq<Action>, call: Call) returns (longer: seq<Action>)
    ensures run <= longer && Exec(c, now, longer) == AfterCall(c, Exec(c, now, run), call)
  {
    hide Exec, Step, AsyncRound;
    match call
    case Passes(ns) => longer := Next(c, now, run, Tick(ns));
    case Reads(first, driverConnected, second) => longer := Next(c, now, run, Read(first, driverConnected, second));
    case Commands(position, velocity) => longer := Next(c, now, run, UpdateControllers(position, velocity));
    case Switches(starts, stops) => longer := Next(c, now, run, SwitchModes(starts, stops));
    case Writes(freedriveActivated) => longer := Next(c, now, run, Write(freedriveActivated));
    case Works(round) => longer := RoundIsARun(c, now, run, round);
  }

  /** Every sequence of calls is a run of the state machine. */
  lemma {:induction false} CallsAreARun(c: Config, now: nat, calls: seq<Call>) returns (run: seq<Action>)
    ensures Exec(c, now, run) == AfterCalls(c, now, calls)
  {
    run := [];
    if calls != [] {
      run := CallsAreARun(c, now, calls[..|calls| - 1]);
      hide Exec, AfterCall;
      run := CallIsARun(c, now, run, calls[|calls| - 1]);
    }
  }

  /** So the object keeps, after every sequence of calls, what is proved of runs: it receives on no session
      but a whole one, its read() gives up exactly when the grace period is over, its resets are to a pose of
      their own cycle, and they come before any motion command a request has to precede. */
  lemma CallsKeepThePromises(c: Config, now: nat, calls: seq<Call>)
    ensures var s := AfterCalls(c, now, calls);
            && (Usable(s.link) ==> HardwareLink.Whole(s.link))
            && (forall first, second ::
                  ReadVerdict(c, s, first, second) == ReturnError
                  <==> (!(Usable(s.link) && first.Got?)
                        && s.link.now - HardwareOutage.EpisodeStart(s.link) >= HardwareOutage.GraceNs(c)))
            && HardwareCommands.ResetsAreCurrent(s.arm.log, s.arm.received)
            && (forall i, j :: 0 <= i < j < |s.arm.log| && HardwareCommands.IsMotion(s.arm.log[j])
                               && s.arm.log[i].Requested? && !HardwareCommands.Exposed(s.arm.log[i]) ==>
                  exists k :: i < k < j && s.arm.log[k].Reset?)
  {
    var run := CallsAreARun(c, now, calls);
    hide Exec, AfterCalls, ReadVerdict, HardwareOutage.GraceNs;
    HardwareLink.SessionIsNullOrWhole(c, now, run);
    HardwareCommands.ResetsUseTheirOwnCycle(c, now, run);
    var s := AfterCalls(c, now, calls);
    forall first, second
      ensures ReadVerdict(c, s, first, second) == ReturnError
              <==> (!(Usable(s.link) && first.Got?)
                    && s.link.now - HardwareOutage.EpisodeStart(s.link) >= HardwareOutage.GraceNs(c))
    {
      HardwareOutage.ErrorExactlyWhenGraceIsOver(c, now, run, first, second);
    }
    forall i, j | 0 <= i < j < |s.arm.log| && HardwareCommands.IsMotion(s.arm.log[j])
                  && s.arm.log[i].Requested? && !HardwareCommands.Exposed(s.arm.log[i])
      ensures exists k :: i < k < j && s.arm.log[k].Reset?
    {
      HardwareCommands.NoMotionBeforeReset(c, now, run, i, j);
    }
  }
}
