/** What write() sends after the external control script was resent, over every run of the two threads. */
module HardwareCommands {
  import opened ModeSwitch
  import opened RobotJoints
  import opened Wrappers
  import opened HardwareState

  predicate IsMotion(e: Event) {
    e.Sent? && (e.what == Servoj || e.what == Speedj)
  }

  /** A request made while the robot's task was playing and connected, in a cycle that had no frame in
      hand for the next write(). */
  predicate Exposed(e: Event) {
    e.Requested? && e.task == Playing && e.connected && !e.frameInHand
  }

  /** A reset was requested and none has been done since; exposed requests count only if asked for. */
  predicate Unmet(log: seq<Event>, evenExposed: bool) {
    log != [] &&
    var front, e := log[..|log| - 1], log[|log| - 1];
    if e.Requested? && (evenExposed || !Exposed(e)) then true
    else if e.Reset? then false
    else Unmet(front, evenExposed)
  }

  /** No motion command while a request that was not exposed is unmet. */
  predicate Guarded(log: seq<Event>) {
    log == [] ||
    (Guarded(log[..|log| - 1]) && (IsMotion(log[|log| - 1]) ==> !Unmet(log[..|log| - 1], false)))
  }

  predicate ResetsAreCurrent(log: seq<Event>, received: seq<Option<Joints>>) {
    forall k :: 0 <= k < |log| && log[k].Reset? ==>
      log[k].cycle < |received| && received[log[k].cycle] == Some(log[k].pose)
  }

  predicate ArmInv(a: Arm) {
    && (a.phase.Writing? ==> a.received != [])
    && (a.gotFrame ==> a.received != [] && a.received[|a.received| - 1] == Some(a.pose))
    && (Unmet(a.log, true) ==> a.resetPending)
    && (Unmet(a.log, false) ==>
          a.resetPending && (a.task == Playing && a.connected ==> a.phase.Writing? && a.gotFrame))
    && Guarded(a.log)
    && ResetsAreCurrent(a.log, a.received)
  }

  lemma Logged(log: seq<Event>, e: Event, evenExposed: bool)
    ensures Unmet(log + [e], evenExposed)
            == (if e.Requested? && (evenExposed || !Exposed(e)) then true
                else if e.Reset? then false
                else Unmet(log, evenExposed))
    ensures Guarded(log + [e]) == (Guarded(log) && (IsMotion(e) ==> !Unmet(log, false)))
  {
    assert (log + [e])[..|log|] == log;
  }

  lemma ReadKeepsArm(a: Arm, usable: bool, first: Reception, driverConnected: bool, second: Second)
    requires ArmInv(a) && a.phase.Reading?
    ensures ArmInv(ReadArm(a, usable, first, driverConnected, second))
  {
    hide Unmet, Guarded;
    if usable && first.Got? {
      var t := TakeFrame(a, first.frame, driverConnected);
      if first.frame.powerOn && !a.lastPowerOn && second.SecondGot? {
        var e := Reset(|t.received| - 1, second.pose);
        Logged(a.log, e, false);
        Logged(a.log, e, true);
      }
    }
  }

  lemma WriteKeepsArm(a: Arm, freedriveActivated: bool)
    requires ArmInv(a) && a.phase.Writing?
    ensures ArmInv(WriteArm(a, freedriveActivated))
  {
    hide Unmet, Guarded, Dispatch;
    var e := Reset(|a.received| - 1, a.pose);
    Logged(a.log, e, false);
    Logged(a.log, e, true);
    var r := ConsumeReset(a);
    var what := Dispatch(r.running, freedriveActivated);
    Logged(r.log, Event.Sent(what, ArgumentOf(r, what)), false);
    Logged(r.log, Event.Sent(what, ArgumentOf(r, what)), true);
  }

  lemma RequestKeepsArm(a: Arm)
    requires ArmInv(a)
    ensures ArmInv(RequestReset(a))
  {
    hide Unmet, Guarded;
    var e := Requested(a.task, a.connected, a.phase.Writing? && a.gotFrame);
    Logged(a.log, e, false);
    Logged(a.log, e, true);
  }

  lemma ArmStep(c: Config, s: State, a: Action)
    requires ArmInv(s.arm)
    ensures ArmInv(Step(c, s, a).arm)
  {
    hide Unmet, Guarded, ResetsAreCurrent, Decide, Proceed, CheckDriver, FinishIO, ReadLink, ReadArm, WriteArm, RequestReset;
    match a
    case Read(first, driverConnected, second) =>
      if s.arm.phase.Reading? {
        ReadKeepsArm(s.arm, Usable(s.link), first, driverConnected, second);
      }
    case Write(activated) =>
      if s.arm.phase.Writing? {
        WriteKeepsArm(s.arm, activated);
      }
    case CheckDriverStep(_) => RequestKeepsArm(s.arm);
    case Resend => RequestKeepsArm(s.arm);
    case _ =>
  }

  lemma {:induction false} ArmInvHolds(c: Config, now: nat, run: seq<Action>)
    ensures ArmInv(Exec(c, now, run).arm)
  {
    hide Step, ArmInv;
    if run != [] {
      ArmInvHolds(c, now, run[..|run| - 1]);
      ArmStep(c, Exec(c, now, run[..|run| - 1]), run[|run| - 1]);
    } else {
      StartsWell(now);
    }
  }

  lemma StartsWell(now: nat)
    ensures ArmInv(Configured(now).arm)
  {
  }

  /** Every reset, write()'s or the power-on one, is to a pose received in the cycle that does it. */
  lemma {:induction false} ResetsUseTheirOwnCycle(c: Config, now: nat, run: seq<Action>)
    ensures var a := Exec(c, now, run).arm;
            forall k :: 0 <= k < |a.log| && a.log[k].Reset? ==>
              a.log[k].cycle < |a.received| && a.received[a.log[k].cycle] == Some(a.log[k].pose)
  {
    ArmInvHolds(c, now, run);
    hide Exec;
  }

  /** Power coming on resets the commands to the frame received for it, in the same read(); without that
      frame nothing is reset, and the next read() that sees power takes it as coming on again. */
  lemma PowerOnResets(a: Arm, frame: Frame, driverConnected: bool, pose: Joints)
    requires frame.powerOn && !a.lastPowerOn
    ensures var r := ReadArm(a, true, Got(frame), driverConnected, SecondGot(pose));
            && r.position == pose && r.velocity == AT_REST && r.lastPowerOn && r.gotFrame
            && r.received == a.received + [Some(pose)] && r.log == a.log + [Reset(|a.received|, pose)]
    ensures var r := ReadArm(a, true, Got(frame), driverConnected, SecondMissed);
            && r.position == a.position && r.velocity == a.velocity && !r.lastPowerOn && r.gotFrame
            && r.received == a.received + [Some(frame.pose)] && r.log == a.log
  {
  }

  lemma {:induction false} UnmetFrom(log: seq<Event>, i: nat)
    requires i < |log| && log[i].Requested? && !Exposed(log[i])
    requires forall k :: i < k < |log| ==> !log[k].Reset?
    ensures Unmet(log, false)
    decreases |log|
  {
    if i < |log| - 1 {
      UnmetFrom(log[..|log| - 1], i);
    }
  }

  lemma {:induction false} GuardedAt(log: seq<Event>, j: nat)
    requires Guarded(log) && j < |log| && IsMotion(log[j])
    ensures !Unmet(log[..j], false)
    decreases |log|
  {
    if j < |log| - 1 {
      GuardedAt(log[..|log| - 1], j);
      assert log[..|log| - 1][..j] == log[..j];
    }
  }

  /** A reset comes between a request and the next servoj or speedj, whatever frames are lost: if the robot's task
      was not playing when a resend asked for the reset, and even if it was, unless the robot also was
      connected and no frame was in hand for the write() of that cycle. */
  lemma {:induction false} NoMotionBeforeReset(c: Config, now: nat, run: seq<Action>, i: nat, j: nat)
    requires var log := Exec(c, now, run).arm.log;
             i < j < |log| && log[i].Requested? && IsMotion(log[j])
             && !(log[i].task == Playing && log[i].connected && !log[i].frameInHand)
    ensures var log := Exec(c, now, run).arm.log; exists k :: i < k < j && log[k].Reset?
  {
    ArmInvHolds(c, now, run);
    hide Exec;
    var log := Exec(c, now, run).arm.log;
    GuardedAt(log, j);
    if forall k :: i < k < j ==> !log[k].Reset? {
      UnmetFrom(log[..j], i);
    }
  }

  /** That exception is exact: from any state just after such a request, whatever mode runs, one lost frame
      and a switch to position are enough for the controllers' target to go out before any reset. */
  lemma {:induction false} ExposedRequestCanBeOvertaken(c: Config, now: nat, run: seq<Action>, target: Joints) returns (longer: seq<Action>)
    requires var a := Exec(c, now, run).arm;
             a.log != [] && a.log[|a.log| - 1] == Requested(Playing, true, false)
             && a == RequestReset(a.(log := a.log[..|a.log| - 1]))
    ensures run <= longer
    ensures Exec(c, now, longer).arm.log == Exec(c, now, run).arm.log + [Event.Sent(Servoj, target)]
  {
    hide Exec, Unmet, Guarded;
    longer := run;
    if Exec(c, now, run).arm.phase.Reading? {
      longer := Next(c, now, longer, Read(Missed, false, SecondMissed));
    }
    longer := Next(c, now, longer, SwitchModes([Position], [Velocity, Freedrive]));
    longer := Next(c, now, longer, UpdateControllers(target, AT_REST));
    longer := Next(c, now, longer, Write(false));
  }

  /** With a request unmet, whatever the robot's task did when it was made, exactly one kind of write() sends a
      motion command first: one that got no frame this cycle while the last one received said playing. */
  lemma UnresetMotionExactly(c: Config, now: nat, run: seq<Action>, freedriveActivated: bool)
    requires var a := Exec(c, now, run).arm; a.phase.Writing? && Unmet(a.log, true)
    ensures var a := Exec(c, now, run).arm;
            var log := Step(c, Exec(c, now, run), Write(freedriveActivated)).arm.log;
            (|log| > |a.log| && IsMotion(log[|a.log|]))
            <==> (!a.gotFrame && a.task == Playing && a.connected && (a.running.position || a.running.velocity))
  {
    ArmInvHolds(c, now, run);
    hide Exec, Unmet, Guarded, ResetsAreCurrent;
  }

  /** What a write() sends when it has no reset to do, over every run: while the task plays and the robot is
      connected, the controllers' own command for the mode that runs, position before velocity before
      freedrive; and otherwise nothing at all. */
  lemma {:induction false} WriteSendsTheCommand(c: Config, now: nat, run: seq<Action>, p: Joints, v: Joints, activated: bool)
    requires var a := Exec(c, now, run).arm; a.phase.Writing? && !(a.gotFrame && a.resetPending)
    ensures var a := Exec(c, now, run).arm;
            var b := Step(c, Step(c, Exec(c, now, run), UpdateControllers(p, v)), Write(activated)).arm;
            && b.phase.Reading?
            && b.log == a.log +
                 if a.task != Playing || !a.connected then []
                 else if a.running.position then [Event.Sent(Servoj, p)]
                 else if a.running.velocity then [Event.Sent(Speedj, v)]
                 else if a.running.freedrive && activated then [Event.Sent(FreedriveNoop, AT_REST)]
                 else [Event.Sent(Idle, AT_REST)]
  {
    hide Exec;
  }

  /** The same with a reset due: the controllers' command gives way to the pose of this cycle, or to a
      velocity of zero. */
  lemma {:induction false} WriteSendsTheReset(c: Config, now: nat, run: seq<Action>, p: Joints, v: Joints, activated: bool)
    requires var a := Exec(c, now, run).arm; a.phase.Writing? && a.gotFrame && a.resetPending
    ensures var a := Exec(c, now, run).arm;
            var b := Step(c, Step(c, Exec(c, now, run), UpdateControllers(p, v)), Write(activated)).arm;
            && a.received != [] && a.received[|a.received| - 1] == Some(a.pose)
            && b.phase.Reading? && !b.resetPending && b.position == a.pose && b.velocity == [0.0, 0.0, 0.0, 0.0, 0.0, 0.0]
            && b.log == a.log + [Reset(|a.received| - 1, a.pose)] +
                 if a.task != Playing || !a.connected then []
                 else if a.running.position then [Event.Sent(Servoj, a.pose)]
                 else if a.running.velocity then [Event.Sent(Speedj, [0.0, 0.0, 0.0, 0.0, 0.0, 0.0])]
                 else if a.running.freedrive && activated then [Event.Sent(FreedriveNoop, AT_REST)]
                 else [Event.Sent(Idle, AT_REST)]
  {
    ArmInvHolds(c, now, run);
    hide Exec, Unmet, Guarded, ResetsAreCurrent;
  }

  /** A mode switch leaves the command buffer of a mode it stops or starts where the arm is, or at rest, and
      the other one alone. */
  lemma SwitchSetsCommands(c: Config, s: State, starts: seq<Mode>, stops: seq<Mode>)
    requires s.arm.phase.Writing? && Compatible(s.arm.running, starts, stops)
    ensures var a, b := s.arm, Step(c, s, SwitchModes(starts, stops)).arm;
            && b.position == (if Position in starts || Position in stops then a.pose else a.position)
            && b.velocity == (if Velocity in starts || Velocity in stops then [0.0, 0.0, 0.0, 0.0, 0.0, 0.0] else a.velocity)
            && b.log == a.log && b.pose == a.pose
  {
  }

  /** A reset is requested exactly by a resend and by a control channel that was reconnected. */
  lemma RequestsAreMade(c: Config, s: State, a: Action)
    ensures var b := Step(c, s, a).arm;
            if (a.Resend? && s.link.pc.InIO?) || (a.CheckDriverStep? && a.driver.Reconnected? && s.link.pc.CheckingDriver?)
            then b.resetPending && b.log == s.arm.log + [Requested(s.arm.task, s.arm.connected, s.arm.phase.Writing? && s.arm.gotFrame)]
            else (b.resetPending ==> s.arm.resetPending)
                 && |b.log| >= |s.arm.log| && forall i :: |s.arm.log| <= i < |b.log| ==> !b.log[i].Requested?
  {
    hide Decide, Proceed, CheckDriver, FinishIO, ReadLink, Dispatch;
  }

  /** A frame sets what write() goes by: the pose, the task's state, the connection. */
  lemma FramesAreTaken(c: Config, s: State, frame: Frame, driverConnected: bool)
    requires s.arm.phase.Reading? && Usable(s.link) && (frame.powerOn ==> s.arm.lastPowerOn)
    ensures var a, b := s.arm, Step(c, s, Read(Got(frame), driverConnected, SecondMissed)).arm;
            b == a.(phase := Writing, gotFrame := true, pose := frame.pose, task := frame.task,
                    connected := driverConnected, lastPowerOn := frame.powerOn, received := a.received + [Some(frame.pose)])
  {
  }

  /** A read() without a frame changes nothing that write() goes by but to say so. */
  lemma MissesChangeNothing(c: Config, s: State, first: Reception, driverConnected: bool, second: Second)
    requires s.arm.phase.Reading? && !(Usable(s.link) && first.Got?)
    ensures Step(c, s, Read(first, driverConnected, second)).arm
            == s.arm.(phase := Writing, gotFrame := false, received := s.arm.received + [None])
  {
  }

  /** A write() that resets while playing sends the reset's own values: the pose received in this cycle, or
      a velocity of zero. */
  lemma ResetIsWhatIsSent(c: Config, now: nat, run: seq<Action>, freedriveActivated: bool)
    requires var a := Exec(c, now, run).arm;
             a.phase.Writing? && a.gotFrame && a.resetPending && a.task == Playing && a.connected
    ensures var a, cycle := Exec(c, now, run).arm, |Exec(c, now, run).arm.received| - 1;
            var what := Dispatch(a.running, freedriveActivated);
            cycle >= 0 && a.received[cycle].Some? &&
            var pose := a.received[cycle].value;
            Step(c, Exec(c, now, run), Write(freedriveActivated)).arm.log
            == a.log + [Reset(cycle, pose)] + [Event.Sent(what, if what == Servoj then pose else AT_REST)]
  {
    ArmInvHolds(c, now, run);
    hide Exec, Unmet, Guarded, ResetsAreCurrent;
  }

  /** Such a request does come up: the script is resent between two cycles while the robot's task plays. */
  lemma ExposedRequestHappens(c: Config, now: nat) returns (run: seq<Action>)
    ensures var a := Exec(c, now, run).arm;
            a.log != [] && a.log[|a.log| - 1] == Requested(Playing, true, false)
            && a == RequestReset(a.(log := a.log[..|a.log| - 1]))
  {
    hide Unmet, Guarded;
    run := Next(c, now, [], Read(Got(Frame(AT_REST, Playing, false)), true, SecondMissed));
    run := Next(c, now, run, Write(false));
    run := Next(c, now, run, UpdateAsyncIO(true, true));
    run := Next(c, now, run, Resend);
    var log := Exec(c, now, run).arm.log;
    assert log == log[..|log| - 1] + [log[|log| - 1]];
  }
}
