/** The hardware interface's two threads. The realtime thread alternates read() and write(), each one
    step; the async thread runs updateAsyncIO(), whose decision is one step and whose reconnectAll() is
    split at every store the other thread can see. */
module HardwareState {
  import opened Arithmetic
  import opened ModeSwitch
  import opened RobotJoints
  import opened Wrappers

  const NS_PER_S := 1_000_000_000

  /** The two hardware parameters, in seconds. */
  datatype Config = Config(gracePeriod: real, retryInterval: real)

  function GraceSeconds(c: Config): int {
    TruncToInt(c.gracePeriod)
  }

  function Seconds(ns: int): real {
    ns as real / 1000000000.0
  }

  /** timeoutExpired: whole seconds elapsed against a whole number of seconds. */
  predicate TimeoutExpired(c: Config, start: int, now: int) {
    TruncDiv(now - start, NS_PER_S) >= GraceSeconds(c)
  }

  // ----- the link: the RTSI session and its reconnection -----

  /** rtsi_interface_: absent; made; made and connected; connected, initialised and started. */
  datatype Session = Null | Created | Connected | Ready

  /** Where the async thread stands: about to run updateAsyncIO(); at the named line of reconnectAll();
      after it; in the I/O part, before and after a resend. */
  datatype AsyncPc =
    | Resting
    | Raising
    | TearingDown
    | DroppingOutput
    | DroppingInput
    | Pausing
    | Creating
    | Connecting
    | Initialising
    | Dropping
    | Lowering(ok: bool)
    | CheckingDriver
    | Resolving
    | ClearingFailed
    | InIO
    | AfterResend

  /** What read() and reconnectAll() share: the session, its recipes, and rtsi_reconnecting_. */
  datatype Client = Client(session: Session, outRecipe: bool, inRecipe: bool, reconnecting: bool)

  /** reconnection_needed_, reconnect_failed_, the two times, and the attempts of the current episode. */
  datatype Outage = Outage(needed: bool, failed: bool, startTime: int, lastAttempt: int, attempts: seq<int>)

  /** History: whether a reconnection was needed when rtsi_reconnecting_ was last raised, and the reads
      since; whether some reconnectAll() went by without a read; how often the I/O part met a null session. */
  datatype Past = Past(neededAtRaise: bool, readsSince: nat, hasty: bool, nullUses: nat)

  datatype Link = Link(pc: AsyncPc, client: Client, outage: Outage, past: Past, now: int)

  /** How a call into the SDK, or the wait before it, ends. */
  datatype Outcome = Done | Refused | Threw(elite: bool)

  datatype Driver = AlreadyConnected | ContextGone | ConnectFailed | Reconnected | ConnectThrew

  /** read() only receives when this holds. */
  predicate Usable(l: Link) {
    !l.client.reconnecting && l.client.session != Null
  }

  /** A read() that receives nothing opens an episode, unless one is open. */
  function Armed(o: Outage, now: int): Outage {
    if o.needed then o else Outage(true, false, now, 0, [])
  }

  function Received(o: Outage): Outage {
    if o.needed then o.(needed := false, failed := false) else o
  }

  function ReadLink(l: Link, got: bool): Link {
    l.(outage := if got && Usable(l) then Received(l.outage) else Armed(l.outage, l.now),
       past := l.past.(readsSince := l.past.readsSince + 1))
  }

  /** updateAsyncIO() as far as its decision. */
  function Decide(c: Config, l: Link, started: bool, contextOk: bool): Link {
    var o := l.outage;
    if l.client.session != Null && !started && l.client.inRecipe then l
    else if !o.needed then l.(pc := InIO)
    else if !contextOk || o.failed then l
    else if TimeoutExpired(c, o.startTime, l.now) then l.(outage := o.(failed := true))
    else if Seconds(l.now - o.lastAttempt) >= c.retryInterval then
      l.(outage := o.(lastAttempt := l.now, attempts := o.attempts + [l.now]), pc := Raising)
    else l
  }

  /** reconnectAll() is over: nothing has been read while it ran if readsSince is still 0. */
  function Over(p: Past): Past {
    p.(hasty := p.hasty || p.readsSince == 0)
  }

  /** An exception inside the try block: an EliteException is handled, any other leaves reconnectAll()
      with rtsi_reconnecting_ still raised. */
  function Caught(l: Link, elite: bool): Link {
    if elite then l.(pc := Dropping) else l.(past := Over(l.past), pc := Resting)
  }

  /** What a failing initialisation leaves behind: the recipes it got to set. */
  function PartlySet(k: Client, setOut: bool, setIn: bool): Client {
    k.(outRecipe := k.outRecipe || setOut, inRecipe := k.inRecipe || setIn)
  }

  /** The next store of reconnectAll(), and of its success path in updateAsyncIO(). setOut and setIn say
      which recipes a failing initialisation got to set. */
  function Proceed(l: Link, o: Outcome, setOut: bool, setIn: bool): Link {
    var k := l.client;
    match l.pc
    case Raising =>
      l.(client := k.(reconnecting := true), pc := TearingDown,
         past := l.past.(neededAtRaise := l.outage.needed, readsSince := 0))
    case TearingDown => l.(client := k.(session := Null), pc := DroppingOutput)
    case DroppingOutput => l.(client := k.(outRecipe := false), pc := DroppingInput)
    case DroppingInput => l.(client := k.(inRecipe := false), pc := Pausing)
    case Pausing => if o.Done? then l.(pc := Creating) else l.(pc := Lowering(false))
    case Creating =>
      if o.Done? then l.(client := k.(session := Created), pc := Connecting)
      else if o.Refused? then l.(pc := Lowering(false))
      else Caught(l, o.elite)
    case Connecting =>
      if o.Done? then l.(client := k.(session := Connected), pc := Initialising)
      else if o.Refused? then l.(pc := Dropping)
      else Caught(l, o.elite)
    case Initialising =>
      if o.Done? then l.(client := k.(session := Ready, outRecipe := true, inRecipe := true), pc := Lowering(true))
      else if o.Refused? then l.(client := PartlySet(k, setOut, setIn), pc := Dropping)
      else Caught(l.(client := PartlySet(k, setOut, setIn)), o.elite)
    case Dropping => l.(client := k.(session := Null), pc := Lowering(false))
    case Lowering(ok) =>
      l.(client := k.(reconnecting := false), past := Over(l.past), pc := if ok then CheckingDriver else Resting)
    case Resolving => l.(outage := l.outage.(needed := false), pc := ClearingFailed)
    case ClearingFailed => l.(outage := l.outage.(failed := false), pc := Resting)
    case _ => l
  }

  function CheckDriver(l: Link, d: Driver): Link {
    if !l.pc.CheckingDriver? then l
    else if d.ContextGone? || d.ConnectThrew? then l.(pc := Resting)
    else l.(pc := Resolving)
  }

  /** The end of the I/O part: the unguarded use of the session, unless something threw before it. */
  function FinishIO(l: Link, reached: bool): Link {
    if l.pc.InIO? || l.pc.AfterResend? then
      l.(pc := Resting, past := l.past.(
           nullUses := l.past.nullUses + if reached && l.client.session == Null then 1 else 0))
    else l
  }

  // ----- the arm: frames, commands, resets -----

  datatype TaskStatus = Unknown | Playing | Paused | Stopped

  datatype Frame = Frame(pose: Joints, task: TaskStatus, powerOn: bool)

  /** receiveData() returned false or threw, or delivered a frame. */
  datatype Reception = Missed | Got(frame: Frame)

  /** The second receiveData() that a power-on triggers; an exception from it leaves read(). */
  datatype Second = SecondMissed | SecondThrew | SecondGot(pose: Joints)

  datatype Phase = Reading | Writing

  /** What happened to the commands, in order: a reset was requested, in a state the request records; the
      command buffers were reset to a pose; something was sent to the robot. */
  datatype Event =
    | Requested(task: TaskStatus, connected: bool, frameInHand: bool)
    | Reset(cycle: nat, pose: Joints)
    | Sent(what: Sent, arg: Joints)

  /** received has one entry a cycle: the pose its read() took last, if it took one. */
  datatype Arm = Arm(
    phase: Phase, gotFrame: bool, pose: Joints, position: Joints, velocity: Joints,
    resetPending: bool, task: TaskStatus, connected: bool, lastPowerOn: bool, running: Running,
    received: seq<Option<Joints>>, log: seq<Event>)

  function ResetToActualPose(a: Arm): Arm
    requires a.received != []
  {
    a.(position := a.pose, velocity := AT_REST, log := a.log + [Reset(|a.received| - 1, a.pose)])
  }

  /** read()'s view of a frame, up to the power-on check. */
  function TakeFrame(a: Arm, f: Frame, driverConnected: bool): Arm {
    a.(phase := Writing, gotFrame := true, pose := f.pose, task := f.task, connected := driverConnected,
       received := a.received + [Some(f.pose)])
  }

  function PowerCheck(a: Arm, powerOn: bool, second: Second): Arm
    requires a.received != []
  {
    if powerOn && !a.lastPowerOn then
      if second.SecondGot? then
        ResetToActualPose(
          a.(pose := second.pose, received := a.received[|a.received| - 1 := Some(second.pose)])).(lastPowerOn := true)
      else a
    else a.(lastPowerOn := powerOn)
  }

  function ReadArm(a: Arm, usable: bool, first: Reception, driverConnected: bool, second: Second): Arm {
    if usable && first.Got? then
      PowerCheck(TakeFrame(a, first.frame, driverConnected), first.frame.powerOn, second)
    else
      a.(phase := Writing, gotFrame := false, received := a.received + [None])
  }

  function ArgumentOf(a: Arm, what: Sent): Joints {
    match what case Servoj => a.position case Speedj => a.velocity case FreedriveNoop => AT_REST case Idle => AT_REST
  }

  /** The reset write() carries out, if one is pending and this cycle's read() got a frame. */
  function ConsumeReset(a: Arm): Arm {
    if a.gotFrame && a.resetPending && a.received != [] then ResetToActualPose(a.(resetPending := false)) else a
  }

  function WriteArm(a: Arm, freedriveActivated: bool): Arm {
    var r := ConsumeReset(a);
    if r.task == Playing && r.connected then
      var what := Dispatch(r.running, freedriveActivated);
      r.(phase := Reading, log := r.log + [Event.Sent(what, ArgumentOf(r, what))])
    else r.(phase := Reading)
  }

  /** perform_command_mode_switch as far as the commands go, for a request that prepare found acceptable. */
  function SwitchArm(a: Arm, starts: seq<Mode>, stops: seq<Mode>): Arm {
    a.(running := Performed(a.running, starts, stops),
       position := if Position in stops || Position in starts then a.pose else a.position,
       velocity := if Velocity in stops || StartsFirst(Velocity, starts) then AT_REST else a.velocity)
  }

  /** Where the async thread asks for a reset. */
  function RequestReset(a: Arm): Arm {
    a.(resetPending := true, log := a.log + [Requested(a.task, a.connected, a.phase.Writing? && a.gotFrame)])
  }

  // ----- both -----

  datatype State = State(link: Link, arm: Arm)

  datatype Action =
    | Tick(ns: nat)
    | Read(first: Reception, driverConnected: bool, second: Second)
    | UpdateControllers(position: Joints, velocity: Joints)
    | SwitchModes(starts: seq<Mode>, stops: seq<Mode>)
    | Write(freedriveActivated: bool)
    | UpdateAsyncIO(started: bool, contextOk: bool)
    | ReconnectStep(outcome: Outcome, setOut: bool, setIn: bool)
    | CheckDriverStep(driver: Driver)
    | Resend
    | EndIO(reached: bool)

  /** One step of one thread. An action whose thread is elsewhere changes nothing. */
  function Step(c: Config, s: State, a: Action): State {
    match a
    case Tick(ns) => s.(link := s.link.(now := s.link.now + ns))
    case Read(first, driverConnected, second) =>
      if s.arm.phase.Reading? then
        State(ReadLink(s.link, first.Got?), ReadArm(s.arm, Usable(s.link), first, driverConnected, second))
      else s
    case UpdateControllers(position, velocity) =>
      if s.arm.phase.Writing? then s.(arm := s.arm.(position := position, velocity := velocity)) else s
    case SwitchModes(starts, stops) =>
      if s.arm.phase.Writing? && Compatible(s.arm.running, starts, stops) then s.(arm := SwitchArm(s.arm, starts, stops))
      else s
    case Write(freedriveActivated) =>
      if s.arm.phase.Writing? then s.(arm := WriteArm(s.arm, freedriveActivated)) else s
    case UpdateAsyncIO(started, contextOk) =>
      if s.link.pc.Resting? then s.(link := Decide(c, s.link, started, contextOk)) else s
    case ReconnectStep(o, setOut, setIn) => s.(link := Proceed(s.link, o, setOut, setIn))
    case CheckDriverStep(d) =>
      State(CheckDriver(s.link, d), if s.link.pc.CheckingDriver? && d.Reconnected? then RequestReset(s.arm) else s.arm)
    case Resend =>
      if s.link.pc.InIO? then State(s.link.(pc := AfterResend), RequestReset(s.arm)) else s
    case EndIO(reached) => s.(link := FinishIO(s.link, reached))
  }

  /** What read() returns. */
  datatype Verdict = ReturnOk | ReturnError | LeftByException

  function ReadVerdict(c: Config, s: State, first: Reception, second: Second): Verdict {
    if Usable(s.link) && first.Got? then
      if first.frame.powerOn && !s.arm.lastPowerOn && second.SecondThrew? then LeftByException else ReturnOk
    else
      var o := Armed(s.link.outage, s.link.now);
      if o.failed || TimeoutExpired(c, o.startTime, s.link.now) then ReturnError else ReturnOk
  }

  /** After a successful on_configure(), at some time of the steady clock. */
  function Configured(now: nat): State {
    State(Link(Resting, Client(Ready, true, true, false), Outage(false, false, 0, 0, []), Past(false, 0, false, 0), now),
          Arm(Reading, false, AT_REST, AT_REST, AT_REST, false, Stopped, false, false, Running(false, false, false), [], []))
  }

  function Exec(c: Config, now: nat, run: seq<Action>): State {
    if run == [] then Configured(now) else Step(c, Exec(c, now, run[..|run| - 1]), run[|run| - 1])
  }

  lemma Next(c: Config, now: nat, run: seq<Action>, a: Action) returns (longer: seq<Action>)
    ensures longer == run + [a] && Exec(c, now, longer) == Step(c, Exec(c, now, run), a)
  {
    longer := run + [a];
    assert longer[..|run|] == run;
  }
}
