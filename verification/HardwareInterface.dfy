/** hardware_interface.cpp's own form: an object whose methods assign its fields. Each call on it is the
    call of HardwareAttempt, so what is proved of sequences of calls holds of the object. */
module HardwareInterface {
  import opened ModeSwitch
  import opened RobotJoints
  import opened Wrappers
  import opened HardwareState
  import opened HardwareAttempt

  function FailEnding(o: Outcome): Ending {
    if o == Threw(false) then Escaped else ReturnFalse
  }

  /** The two ways through read(). */
  lemma ReadCases(c: Config, s: State, first: Reception, driverConnected: bool, second: Second)
    ensures var got, l := Usable(s.link) && first.Got?, s.link;
            && ReadLink(l, first.Got?)
               == l.(outage := if got then Received(l.outage) else Armed(l.outage, l.now),
                     past := l.past.(readsSince := l.past.readsSince + 1))
            && (got ==> var t := TakeFrame(s.arm, first.frame, driverConnected);
                        && t.received != [] && t.lastPowerOn == s.arm.lastPowerOn
                        && ReadArm(s.arm, Usable(l), first, driverConnected, second)
                           == PowerCheck(t, first.frame.powerOn, second))
            && (!got ==> ReadArm(s.arm, Usable(l), first, driverConnected, second)
                         == s.arm.(phase := Writing, gotFrame := false, received := s.arm.received + [None]))
            && ReadVerdict(c, s, first, second)
               == if got then
                    if first.frame.powerOn && !s.arm.lastPowerOn && second.SecondThrew? then LeftByException else ReturnOk
                  else
                    var o := Armed(l.outage, l.now);
                    if o.failed || TimeoutExpired(c, o.startTime, l.now) then ReturnError else ReturnOk
  {
  }

  class Interface {
    const config: Config
    var rtsiInterface: Session
    var outRecipe: bool
    var inRecipe: bool
    var rtsiReconnecting: bool
    var reconnectionNeeded: bool
    var reconnectFailed: bool
    var reconnectStartTime: int
    var reconnectLastAttemptTime: int
    var commandResetPending: bool
    var jointPositionsFresh: bool
    var jointPositions: Joints
    var positionCommands: Joints
    var velocityCommands: Joints
    var runtimeState: TaskStatus
    var isRobotConnected: bool
    var isLastPowerOn: bool
    var running: Running
    ghost var attempts: seq<int>
    ghost var past: Past
    ghost var phase: Phase
    ghost var received: seq<Option<Joints>>
    ghost var log: seq<Event>

    ghost function ClientState(): Client
      reads this
    {
      Client(rtsiInterface, outRecipe, inRecipe, rtsiReconnecting)
    }

    ghost function OutageState(): Outage
      reads this
    {
      Outage(reconnectionNeeded, reconnectFailed, reconnectStartTime, reconnectLastAttemptTime, attempts)
    }

    ghost function LinkState(pc: AsyncPc, now: int): Link
      reads this
    {
      Link(pc, ClientState(), OutageState(), past, now)
    }

    ghost function ArmState(): Arm
      reads this
    {
      Arm(phase, jointPositionsFresh, jointPositions, positionCommands, velocityCommands, commandResetPending,
          runtimeState, isRobotConnected, isLastPowerOn, running, received, log)
    }

    /** The whole state between calls, at a time of the steady clock. */
    ghost function Whole(now: int): State
      reads this
    {
      State(LinkState(Resting, now), ArmState())
    }

    /** After on_configure() succeeded. */
    constructor (config: Config, ghost now: nat)
      ensures this.config == config
      ensures Whole(now) == AfterCalls(config, now, [])
    {
      this.config := config;
      rtsiInterface, outRecipe, inRecipe, rtsiReconnecting := Ready, true, true, false;
      reconnectionNeeded, reconnectFailed, reconnectStartTime, reconnectLastAttemptTime := false, false, 0, 0;
      attempts, past := [], Past(false, 0, false, 0);
      commandResetPending, jointPositionsFresh := false, false;
      jointPositions, positionCommands, velocityCommands := AT_REST, AT_REST, AT_REST;
      runtimeState, isRobotConnected, isLastPowerOn := Stopped, false, false;
      running := Running(false, false, false);
      phase, received, log := Reading, [], [];
    }

    method ResetCommandsToActualPose()
      requires received != []
      modifies this`positionCommands, this`velocityCommands, this`log
      ensures ArmState() == ResetToActualPose(old(ArmState()))
    {
      positionCommands := jointPositions;
      velocityCommands := AT_REST;
      log := log + [Reset(|received| - 1, jointPositions)];
    }

    /** What read() does about a frame it did not get: open an episode unless one is open, and give up if
        the async thread has, or if the grace period is over. */
    method NoteMissedFrame(now: int) returns (verdict: Verdict)
      modifies this`reconnectStartTime, this`reconnectLastAttemptTime, this`reconnectFailed, this`reconnectionNeeded,
               this`attempts, this`past
      ensures OutageState() == Armed(old(OutageState()), now)
      ensures past == old(past).(readsSince := old(past).readsSince + 1)
      ensures verdict == if reconnectFailed || TimeoutExpired(config, reconnectStartTime, now) then ReturnError else ReturnOk
    {
      past := past.(readsSince := past.readsSince + 1);
      if !reconnectionNeeded {
        reconnectStartTime := now;
        reconnectLastAttemptTime := 0;
        reconnectFailed := false;
        attempts := [];
        reconnectionNeeded := true;
      }
      if reconnectFailed {
        return ReturnError;
      }
      if TimeoutExpired(config, reconnectStartTime, now) {
        return ReturnError;
      }
      return ReturnOk;
    }

    /** read(): guarded by the flag and the null check; a frame ends the episode and may be followed by the
        power-on reset. */
    method Read(now: int, first: Reception, driverConnected: bool, second: Second) returns (verdict: Verdict)
      requires phase.Reading?
      modifies this`reconnectStartTime, this`reconnectLastAttemptTime, this`reconnectFailed, this`reconnectionNeeded,
               this`attempts, this`past, this`phase, this`jointPositionsFresh, this`jointPositions,
               this`positionCommands, this`velocityCommands, this`runtimeState, this`isRobotConnected,
               this`isLastPowerOn, this`received, this`log
      ensures Whole(now) == AfterCall(config, old(Whole(now)), Reads(first, driverConnected, second))
      ensures verdict == ReadVerdict(config, old(Whole(now)), first, second)
    {
      hide ReadLink, ReadArm, ReadVerdict, Armed, Received, TakeFrame, PowerCheck, TimeoutExpired;
      ReadCases(config, State(LinkState(Resting, now), ArmState()), first, driverConnected, second);
      if !rtsiReconnecting && rtsiInterface != Null && first.Got? {
        verdict := ReadFrame(now, first.frame, driverConnected, second);
      } else {
        verdict := ReadNothing(now);
      }
    }

    method ReadFrame(ghost now: int, frame: Frame, driverConnected: bool, second: Second) returns (verdict: Verdict)
      modifies this`reconnectFailed, this`reconnectionNeeded, this`past, this`phase, this`jointPositionsFresh,
               this`jointPositions, this`positionCommands, this`velocityCommands, this`runtimeState,
               this`isRobotConnected, this`isLastPowerOn, this`received, this`log
      ensures ClientState() == old(ClientState()) && OutageState() == Received(old(OutageState()))
      ensures past == old(past).(readsSince := old(past).readsSince + 1)
      ensures ArmState() == var t := TakeFrame(old(ArmState()), frame, driverConnected); PowerCheck(t, frame.powerOn, second)
      ensures verdict == if frame.powerOn && !old(isLastPowerOn) && second.SecondThrew? then LeftByException else ReturnOk
    {
      hide PowerCheck, TakeFrame, Received;
      EndEpisode();
      verdict := TakeCycle(frame, driverConnected, second);
    }

    method TakeCycle(frame: Frame, driverConnected: bool, second: Second) returns (verdict: Verdict)
      modifies this`phase, this`jointPositionsFresh, this`jointPositions, this`positionCommands,
               this`velocityCommands, this`runtimeState, this`isRobotConnected, this`isLastPowerOn, this`received, this`log
      ensures ArmState() == var t := TakeFrame(old(ArmState()), frame, driverConnected); PowerCheck(t, frame.powerOn, second)
      ensures verdict == if frame.powerOn && !old(isLastPowerOn) && second.SecondThrew? then LeftByException else ReturnOk
    {
      hide PowerCheck;
      IngestFrame(frame, driverConnected);
      verdict := CheckPower(frame.powerOn, second);
    }

    method ReadNothing(now: int) returns (verdict: Verdict)
      modifies this`reconnectStartTime, this`reconnectLastAttemptTime, this`reconnectFailed, this`reconnectionNeeded,
               this`attempts, this`past, this`phase, this`jointPositionsFresh, this`received
      ensures ClientState() == old(ClientState()) && OutageState() == Armed(old(OutageState()), now)
      ensures past == old(past).(readsSince := old(past).readsSince + 1)
      ensures ArmState() == old(ArmState()).(phase := Writing, gotFrame := false, received := old(received) + [None])
      ensures verdict == if reconnectFailed || TimeoutExpired(config, reconnectStartTime, now) then ReturnError else ReturnOk
    {
      hide Armed, TimeoutExpired;
      MissCycle();
      verdict := NoteMissedFrame(now);
    }

    method MissCycle()
      modifies this`phase, this`jointPositionsFresh, this`received
      ensures ArmState() == old(ArmState()).(phase := Writing, gotFrame := false, received := old(received) + [None])
    {
      jointPositionsFresh := false;
      phase := Writing;
      received := received + [None];
    }

    method EndEpisode()
      modifies this`reconnectionNeeded, this`reconnectFailed, this`past
      ensures OutageState() == Received(old(OutageState()))
      ensures past == old(past).(readsSince := old(past).readsSince + 1)
    {
      past := past.(readsSince := past.readsSince + 1);
      if reconnectionNeeded {
        reconnectionNeeded := false;
        reconnectFailed := false;
      }
    }

    /** What a frame sets, as far as the commands depend on it. */
    method IngestFrame(frame: Frame, driverConnected: bool)
      modifies this`jointPositions, this`jointPositionsFresh, this`runtimeState, this`isRobotConnected,
               this`received, this`phase
      ensures received != [] && isLastPowerOn == old(isLastPowerOn)
      ensures ArmState() == TakeFrame(old(ArmState()), frame, driverConnected)
    {
      phase := Writing;
      jointPositions := frame.pose;
      jointPositionsFresh := true;
      runtimeState := frame.task;
      isRobotConnected := driverConnected;
      received := received + [Some(frame.pose)];
    }

    /** Off to on: one more frame is taken and the commands are reset to it. */
    method CheckPower(powerOn: bool, second: Second) returns (verdict: Verdict)
      requires received != []
      modifies this`jointPositions, this`positionCommands, this`velocityCommands, this`isLastPowerOn,
               this`received, this`log
      ensures ArmState() == PowerCheck(old(ArmState()), powerOn, second)
      ensures verdict == if powerOn && !old(isLastPowerOn) && second.SecondThrew? then LeftByException else ReturnOk
    {
      if powerOn && !isLastPowerOn {
        match second {
          case SecondThrew => return LeftByException;
          case SecondMissed => return ReturnOk;
          case SecondGot(pose) =>
            jointPositions := pose;
            received := received[|received| - 1 := Some(pose)];
            ResetCommandsToActualPose();
            isLastPowerOn := true;
        }
      } else if !powerOn && isLastPowerOn {
        isLastPowerOn := false;
      }
      return ReturnOk;
    }

    /** write(). */
    method Write(ghost now: int, freedriveActivated: bool)
      requires phase.Writing? && received != []
      modifies this`commandResetPending, this`positionCommands, this`velocityCommands, this`phase, this`log
      ensures Whole(now) == AfterCall(config, old(Whole(now)), Writes(freedriveActivated))
      ensures !(jointPositionsFresh && old(commandResetPending)) ==>
                log == old(log) +
                  if runtimeState != Playing || !isRobotConnected then []
                  else if running.position then [Event.Sent(Servoj, old(positionCommands))]
                  else if running.velocity then [Event.Sent(Speedj, old(velocityCommands))]
                  else if running.freedrive && freedriveActivated then [Event.Sent(FreedriveNoop, AT_REST)]
                  else [Event.Sent(Idle, AT_REST)]
    {
      hide WriteArm;
      SendCommand(freedriveActivated);
    }

    method SendCommand(freedriveActivated: bool)
      requires received != []
      modifies this`commandResetPending, this`positionCommands, this`velocityCommands, this`phase, this`log
      ensures ArmState() == WriteArm(old(ArmState()), freedriveActivated)
      ensures !(jointPositionsFresh && old(commandResetPending)) ==>
                log == old(log) +
                  if runtimeState != Playing || !isRobotConnected then []
                  else if running.position then [Event.Sent(Servoj, old(positionCommands))]
                  else if running.velocity then [Event.Sent(Speedj, old(velocityCommands))]
                  else if running.freedrive && freedriveActivated then [Event.Sent(FreedriveNoop, AT_REST)]
                  else [Event.Sent(Idle, AT_REST)]
    {
      if jointPositionsFresh && commandResetPending {
        commandResetPending := false;
        ResetCommandsToActualPose();
      }
      phase := Reading;
      if runtimeState == Playing && isRobotConnected {
        if running.position {
          log := log + [Event.Sent(Servoj, positionCommands)];
        } else if running.velocity {
          log := log + [Event.Sent(Speedj, velocityCommands)];
        } else if running.freedrive && freedriveActivated {
          log := log + [Event.Sent(FreedriveNoop, AT_REST)];
        } else {
          log := log + [Event.Sent(Idle, AT_REST)];
        }
      }
    }

    method RequestCommandReset()
      modifies this`commandResetPending, this`log
      ensures ArmState() == RequestReset(old(ArmState()))
    {
      log := log + [Requested(runtimeState, isRobotConnected, phase.Writing? && jointPositionsFresh)];
      commandResetPending := true;
    }

    /** The decision of updateAsyncIO(): whether this round attempts a reconnection, does I/O, or neither. */
    method DecideRound(now: int, started: bool, contextOk: bool) returns (pc: AsyncPc)
      modifies this`reconnectFailed, this`reconnectLastAttemptTime, this`attempts
      ensures pc.Resting? || pc.InIO? || pc.Raising?
      ensures LinkState(pc, now) == Decide(config, old(LinkState(Resting, now)), started, contextOk)
    {
      if rtsiInterface != Null && !started && inRecipe {
        return Resting;
      }
      if !reconnectionNeeded {
        return InIO;
      }
      if !contextOk {
        return Resting;
      }
      if !reconnectFailed {
        if TimeoutExpired(config, reconnectStartTime, now) {
          reconnectFailed := true;
          return Resting;
        }
        if Seconds(now - reconnectLastAttemptTime) >= config.retryInterval {
          reconnectLastAttemptTime := now;
          attempts := attempts + [now];
          return Raising;
        }
      }
      return Resting;
    }

    /** The first stores of reconnectAll(): flag up, then the session and the recipes go. */
    method TearDown(ghost now: int, ghost t: Attempt)
      modifies this`rtsiReconnecting, this`rtsiInterface, this`outRecipe, this`inRecipe, this`past
      ensures rtsiInterface == Null
      ensures Stores(LinkState(Pausing, now), t) == Stores(old(LinkState(Raising, now)), t)
    {
      hide Stores;
      FollowTeardown(LinkState(Raising, now), t);
      rtsiReconnecting := true;
      past := past.(neededAtRaise := reconnectionNeeded, readsSince := 0);
      rtsiInterface := Null;
      outRecipe := false;
      inRecipe := false;
    }

    /** Every failing path that is handled: no session before the flag comes down. */
    method GiveUp(ghost now: int, ghost t: Attempt)
      modifies this`rtsiReconnecting, this`rtsiInterface, this`past
      ensures LinkState(Resting, now) == Stores(old(LinkState(Dropping, now)), t)
      ensures rtsiInterface == Null && !rtsiReconnecting
    {
      hide Stores;
      ghost var l := Follow(LinkState(Dropping, now), t);
      rtsiInterface := Null;
      l := Follow(l, t);
      rtsiReconnecting := false;
      past := Over(past);
      Ends(l, t);
    }

    /** A call of the try block that did not succeed. */
    method Fail(ghost now: int, ghost t: Attempt, o: Outcome) returns (ending: Ending)
      modifies this`rtsiReconnecting, this`rtsiInterface, this`past
      ensures ending == FailEnding(o)
      ensures LinkState(Resting, now)
              == if o == Threw(false) then old(LinkState(Resting, now)).(past := Over(old(past)))
                 else Stores(old(LinkState(Dropping, now)), t)
    {
      hide Stores;
      if o == Threw(false) {
        past := Over(past);
        return Escaped;
      }
      GiveUp(now, t);
      return ReturnFalse;
    }

    /** The try block of reconnectAll() with its handler, call by call. */
    method MakeSession(ghost now: int, t: Attempt) returns (ending: Ending)
      requires rtsiInterface == Null
      modifies this`rtsiReconnecting, this`rtsiInterface, this`outRecipe, this`inRecipe, this`past
      ensures Stores(old(LinkState(Creating, now)), t)
              == LinkState(if ending.ReturnTrue? then CheckingDriver else Resting, now)
      ensures ending == if !t.make.Done? then FailEnding(t.make)
                        else if !t.connect.Done? then FailEnding(t.connect)
                        else if !t.init.Done? then FailEnding(t.init)
                        else ReturnTrue
    {
      hide Stores;
      ghost var l := Follow(LinkState(Creating, now), t);
      if !t.make.Done? {
        ghost var lowering := Follow(LinkState(Dropping, now), t);
        ending := Fail(now, t, t.make);
        Ends(LinkState(Resting, now), t);
      } else {
        rtsiInterface := Created;
        ending := ConnectSession(now, t);
      }
    }

    method ConnectSession(ghost now: int, t: Attempt) returns (ending: Ending)
      modifies this`rtsiReconnecting, this`rtsiInterface, this`outRecipe, this`inRecipe, this`past
      ensures Stores(old(LinkState(Connecting, now)), t)
              == LinkState(if ending.ReturnTrue? then CheckingDriver else Resting, now)
      ensures ending == if !t.connect.Done? then FailEnding(t.connect)
                        else if !t.init.Done? then FailEnding(t.init)
                        else ReturnTrue
    {
      hide Stores;
      ghost var l := Follow(LinkState(Connecting, now), t);
      if !t.connect.Done? {
        ending := Fail(now, t, t.connect);
        Ends(LinkState(Resting, now), t);
      } else {
        rtsiInterface := Connected;
        ending := InitialiseSession(now, t);
      }
    }

    method InitialiseSession(ghost now: int, t: Attempt) returns (ending: Ending)
      modifies this`rtsiReconnecting, this`rtsiInterface, this`outRecipe, this`inRecipe, this`past
      ensures Stores(old(LinkState(Initialising, now)), t)
              == LinkState(if ending.ReturnTrue? then CheckingDriver else Resting, now)
      ensures ending == if !t.init.Done? then FailEnding(t.init) else ReturnTrue
    {
      hide Stores;
      ghost var l := Follow(LinkState(Initialising, now), t);
      if !t.init.Done? {
        outRecipe, inRecipe := outRecipe || t.setOut, inRecipe || t.setIn;
        ending := Fail(now, t, t.init);
        Ends(LinkState(Resting, now), t);
      } else {
        rtsiInterface, outRecipe, inRecipe := Ready, true, true;
        l := Follow(l, t);
        rtsiReconnecting := false;
        past := Over(past);
        Ends(l, t);
        ending := ReturnTrue;
      }
    }

    /** reconnectAll(), no other thread in between: what it did, how it ended, and what that says about the
        session. */
    method ReconnectAll(ghost now: int, t: Attempt) returns (ending: Ending)
      modifies this`rtsiReconnecting, this`rtsiInterface, this`outRecipe, this`inRecipe, this`past,
               this`commandResetPending, this`log
      ensures LinkState(if ending.ReturnTrue? then Resolving else Resting, now) == Attempted(old(LinkState(Raising, now)), t)
      ensures ArmState() == if Rebuilt(t) && t.driver.Reconnected? then RequestReset(old(ArmState())) else old(ArmState())
      ensures ending == EndingOf(t)
      ensures ending.ReturnTrue? ==> ClientState() == Client(Ready, true, true, false)
      ensures ending.ReturnFalse? ==> !rtsiReconnecting && (rtsiInterface == Null <==> !Rebuilt(t))
      ensures ending.Escaped? ==> (rtsiReconnecting <==> Strays(t))
    {
      hide Stores, Attempted;
      AttemptResult(LinkState(Raising, now), t);
      ending := RunAttempt(now, t);
    }

    method RunAttempt(ghost now: int, t: Attempt) returns (ending: Ending)
      modifies this`rtsiReconnecting, this`rtsiInterface, this`outRecipe, this`inRecipe, this`past,
               this`commandResetPending, this`log
      ensures LinkState(if ending.ReturnTrue? then Resolving else Resting, now) == Attempted(old(LinkState(Raising, now)), t)
      ensures ArmState() == if Rebuilt(t) && t.driver.Reconnected? then RequestReset(old(ArmState())) else old(ArmState())
      ensures ending == EndingOf(t)
    {
      hide Stores;
      TearDown(now, t);
      FollowPause(LinkState(Pausing, now), t);
      if !t.pause.Done? {
        GiveUp(now, t);
        return ReturnFalse;
      }
      ending := MakeSession(now, t);
      if !ending.ReturnTrue? {
        return;
      }
      ending := CheckChannel(t.driver);
    }

    /** The end of reconnectAll(): the control channel. A reconnected one has resent the script. */
    method CheckChannel(driver: Driver) returns (ending: Ending)
      modifies this`commandResetPending, this`log
      ensures ArmState() == if driver.Reconnected? then RequestReset(old(ArmState())) else old(ArmState())
      ensures ending == if driver.ConnectThrew? then Escaped else if driver.ContextGone? then ReturnFalse else ReturnTrue
    {
      match driver {
        case ContextGone => return ReturnFalse;
        case ConnectThrew => return Escaped;
        case Reconnected => RequestCommandReset();
        case _ =>
      }
      return ReturnTrue;
    }

    /** updateAsyncIO(), no other thread in between: an attempt with the two stores after a successful one,
        or the I/O part with its resend, or neither. */
    method UpdateAsyncIO(now: int, r: Round)
      modifies this`rtsiReconnecting, this`rtsiInterface, this`outRecipe, this`inRecipe, this`past,
               this`commandResetPending, this`log, this`reconnectFailed, this`reconnectLastAttemptTime,
               this`attempts, this`reconnectionNeeded
      ensures Whole(now) == AfterCall(config, old(Whole(now)), Works(r))
    {
      hide AsyncRound, Attempted, Stores, Decide, Rebuilt, EndingOf, RequestReset, Resolved, FinishIO;
      RoundCases(config, Whole(now), r);
      var pc := DecideRound(now, r.started, r.contextOk);
      if pc.Raising? {
        Reattempt(now, r.attempt);
      } else if pc.InIO? {
        DoIO(now, r.resend, r.reached);
      }
    }

    /** The attempt of a round, and the two stores if it succeeds. */
    method Reattempt(ghost now: int, t: Attempt)
      modifies this`rtsiReconnecting, this`rtsiInterface, this`outRecipe, this`inRecipe, this`past,
               this`commandResetPending, this`log, this`reconnectFailed, this`reconnectionNeeded
      ensures LinkState(Resting, now) == Resolved(Attempted(old(LinkState(Raising, now)), t))
      ensures ArmState() == if Rebuilt(t) && t.driver.Reconnected? then RequestReset(old(ArmState())) else old(ArmState())
    {
      hide Attempted, Stores, Rebuilt, EndingOf, RequestReset;
      var ending := ReconnectAll(now, t);
      if ending.ReturnTrue? {
        reconnectionNeeded := false;
        reconnectFailed := false;
      }
    }

    /** The I/O part, as far as it concerns the commands and the session. */
    method DoIO(ghost now: int, resend: bool, reached: bool)
      modifies this`past, this`commandResetPending, this`log
      ensures LinkState(Resting, now) == FinishIO(old(LinkState(InIO, now)), reached)
      ensures ArmState() == if resend then RequestReset(old(ArmState())) else old(ArmState())
    {
      hide RequestReset;
      if resend {
        RequestCommandReset();
      }
      if reached {
        past := past.(nullUses := past.nullUses + if rtsiInterface == Null then 1 else 0);
      }
    }

    /** The controllers write their command interfaces between read() and write(). */
    method UpdateCommands(ghost now: int, position: Joints, velocity: Joints)
      requires phase.Writing?
      modifies this`positionCommands, this`velocityCommands
      ensures Whole(now) == AfterCall(config, old(Whole(now)), Commands(position, velocity))
    {
      positionCommands := position;
      velocityCommands := velocity;
    }
  }
}
