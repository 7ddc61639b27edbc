/** external_control.script in its own form: globals assigned by functions, joint lists stored by
    reference, loops. Each function is tied to the step of ScriptState that it carries out. */
module ExternalControl {
  import opened Arithmetic
  import opened RobotJoints
  import opened ScriptState
  import opened ScriptTrajectory
  import opened ScriptPackets
  import opened Wrappers

  /** Outcomes of successive reads on the trajectory socket: any pattern at all. */
  type Arrivals = nat -> ReadResult

  /** The points among the first `attempts` outcomes, in order. */
  function Received(arrive: Arrivals, attempts: nat): seq<Point> {
    if attempts == 0 then [] else
    Received(arrive, attempts - 1) + match arrive(attempts - 1) case Got(p) => [p] case Nothing => []
  }

  /** The longest run of empty reads a drain sits through: one more than fit into the timeout. */
  function SilentReads(timeout: real, steptime: real): nat
    requires timeout >= 0.0 && steptime > 0.0
  {
    (timeout / steptime).Floor + 1
  }

  function Silence(fails: nat, steptime: real): real {
    fails as real * steptime
  }

  lemma SilenceIsExact(timeout: real, steptime: real, fails: nat)
    requires timeout >= 0.0 && steptime > 0.0
    ensures Silence(fails, steptime) > timeout <==> fails >= SilentReads(timeout, steptime)
  {
    var q := timeout / steptime;
    assert q * steptime == timeout;
    assert fails as real * steptime > q * steptime <==> fails as real > q;
  }

  lemma SilenceExpires(timeout: real, steptime: real, fails: nat)
    requires timeout >= 0.0 && steptime > 0.0
    ensures Silence(0, steptime) == 0.0 && Silence(fails + 1, steptime) == Silence(fails, steptime) + steptime
    ensures Silence(fails + 1, steptime) > timeout <==> fails + 1 >= SilentReads(timeout, steptime)
  {
    hide SilentReads;
    SilenceIsExact(timeout, steptime, fails + 1);
  }

  /** A drain in progress: `attempts` reads so far, the last `fails` of them silent. */
  ghost predicate Draining(n: nat, left: int, arrive: Arrivals, attempts: nat, fails: nat, drained: seq<Point>, budget: nat) {
    && 0 <= left <= n && |drained| <= n && fails <= attempts && fails <= budget
    && (left > 0 ==> |drained| + left == n && fails < budget)
    && (left == 0 && |drained| < n ==> fails == budget)
    && attempts <= |drained| * budget + fails
    && (left == 0 && |drained| == n ==> fails == 0)
    && drained == Received(arrive, attempts)
    && forall k: nat :: attempts - fails <= k < attempts ==> arrive(k) == Nothing
  }

  lemma DrainGot(n: nat, left: int, arrive: Arrivals, attempts: nat, fails: nat, drained: seq<Point>, budget: nat, p: Point)
    requires Draining(n, left, arrive, attempts, fails, drained, budget) && left > 0 && arrive(attempts) == Got(p)
    ensures Draining(n, left - 1, arrive, attempts + 1, 0, drained + [p], budget)
  {
    Distribute(|drained|, 1, budget);
  }

  lemma DrainNothing(n: nat, left: int, arrive: Arrivals, attempts: nat, fails: nat, drained: seq<Point>, budget: nat)
    requires Draining(n, left, arrive, attempts, fails, drained, budget) && left > 0 && arrive(attempts) == Nothing
    ensures Draining(n, if fails + 1 >= budget then 0 else left, arrive, attempts + 1, fails + 1, drained, budget)
  {
  }

  lemma DrainBegins(n: nat, arrive: Arrivals, timeout: real, steptime: real)
    requires timeout >= 0.0 && steptime > 0.0
    ensures Draining(n, n, arrive, 0, 0, [], SilentReads(timeout, steptime))
  {
  }

  lemma DrainBounds(n: nat, left: int, arrive: Arrivals, attempts: nat, fails: nat, drained: seq<Point>, budget: nat)
    requires Draining(n, left, arrive, attempts, fails, drained, budget) && left > 0
    ensures fails < budget
  {
  }

  lemma DrainEnds(n: nat, arrive: Arrivals, attempts: nat, fails: nat, drained: seq<Point>, budget: nat)
    requires Draining(n, 0, arrive, attempts, fails, drained, budget)
    ensures |drained| <= n && drained == Received(arrive, attempts)
    ensures attempts <= n * budget
    ensures |drained| < n ==> budget <= attempts && forall k: nat :: attempts - budget <= k < attempts ==> arrive(k) == Nothing
  {
    if |drained| < n {
      Distribute(|drained|, 1, budget);
      MulMonotone(|drained| + 1, n, budget);
    }
  }

  /** The trajectory thread inside its loop, after `attempts` reads, the last `fails` of them silent. */
  ghost predicate Underway(c: Config, t: Trajectory, was: int, arrive: Arrivals, attempts: nat, fails: nat, points: seq<Point>) {
    && c.steptime > 0.0 && c.pointTimeout >= 0.0
    && t.starts != [] && t.thread == Traj(|t.starts| - 1, Looping)
    && (t.result == TRAJECTORY_RESULT_SUCCESS || t.result == TRAJECTORY_RESULT_FAILURE)
    && t.pointWait == Silence(fails, c.steptime)
    && var x := Last(t);
    && x.n == was && x.taken == x.handled == |points| && x.results == [] && x.moves == MovesOf(points, was)
    && (if t.result == TRAJECTORY_RESULT_FAILURE then |points| < AtLeastZero(was)
        else if was > 0 then |points| + t.pointsLeft == was && t.pointsLeft >= 0
        else t.pointsLeft == was)
    && Draining(AtLeastZero(was), if t.result == TRAJECTORY_RESULT_SUCCESS then AtLeastZero(t.pointsLeft) else 0,
                arrive, attempts, fails, points, SilentReads(c.pointTimeout, c.steptime))
  }

  lemma UnderwayRead(c: Config, t: Trajectory, was: int, arrive: Arrivals, attempts: nat, fails: nat, points: seq<Point>)
    requires Underway(c, t, was, arrive, attempts, fails, points)
    requires t.result == TRAJECTORY_RESULT_SUCCESS && t.pointsLeft > 0 && arrive(attempts).Got?
    ensures var p := arrive(attempts).point;
            var u := TrajStep(c, TrajStep(c, t, Got(p)), Nothing);
            Underway(c, u, was, arrive, attempts + 1, 0, points + [p]) && u.pointsLeft < t.pointsLeft
  {
    hide Draining, MovesOf, Silence, SilentReads, MoveFor;
    var p := arrive(attempts).point;
    MovesAppend(points, p, was);
    SilenceExpires(c.pointTimeout, c.steptime, 0);
    DrainGot(AtLeastZero(was), t.pointsLeft, arrive, attempts, fails, points, SilentReads(c.pointTimeout, c.steptime), p);
  }

  lemma UnderwaySilent(c: Config, t: Trajectory, was: int, arrive: Arrivals, attempts: nat, fails: nat, points: seq<Point>)
    requires Underway(c, t, was, arrive, attempts, fails, points)
    requires t.result == TRAJECTORY_RESULT_SUCCESS && t.pointsLeft > 0 && arrive(attempts).Nothing?
    ensures Underway(c, TrajStep(c, t, Nothing), was, arrive, attempts + 1, fails + 1, points)
    ensures TrajStep(c, t, Nothing).pointsLeft == t.pointsLeft
  {
    hide Draining, MovesOf, Silence, SilentReads, MoveFor;
    SilenceExpires(c.pointTimeout, c.steptime, fails);
    DrainNothing(AtLeastZero(was), t.pointsLeft, arrive, attempts, fails, points, SilentReads(c.pointTimeout, c.steptime));
  }

  lemma UnderwayBegins(c: Config, t: Trajectory, arrive: Arrivals)
    requires c.steptime > 0.0 && c.pointTimeout >= 0.0
    requires t.starts != [] && t.thread == Traj(|t.starts| - 1, Beginning)
    requires var x := Last(t); x.n == t.pointsLeft && x.taken == x.handled == 0 && x.moves == [] && x.results == []
    ensures Underway(c, TrajStep(c, t, Nothing), t.pointsLeft, arrive, 0, 0, [])
  {
    hide Draining, SilentReads;
    DrainBegins(AtLeastZero(t.pointsLeft), arrive, c.pointTimeout, c.steptime);
  }

  lemma UnderwayEnds(c: Config, t: Trajectory, was: int, arrive: Arrivals, attempts: nat, fails: nat, points: seq<Point>)
    requires Underway(c, t, was, arrive, attempts, fails, points)
    ensures t.pointsLeft > 0 && t.result == TRAJECTORY_RESULT_SUCCESS ==> fails < SilentReads(c.pointTimeout, c.steptime)
    ensures !(t.pointsLeft > 0 && t.result == TRAJECTORY_RESULT_SUCCESS) ==>
              var n, b := AtLeastZero(was), SilentReads(c.pointTimeout, c.steptime);
              && |points| <= n && points == Received(arrive, attempts) && attempts <= n * b
              && (t.result == TRAJECTORY_RESULT_SUCCESS <==> |points| == n)
              && (|points| < n ==> b <= attempts && forall k: nat :: attempts - b <= k < attempts ==> arrive(k) == Nothing)
  {
    hide MovesOf, Silence, SilentReads, Received;
    if !(t.pointsLeft > 0 && t.result == TRAJECTORY_RESULT_SUCCESS) {
      DrainEnds(AtLeastZero(was), arrive, attempts, fails, points, SilentReads(c.pointTimeout, c.steptime));
    }
  }

  lemma UnderwayMeans(c: Config, t: Trajectory, was: int, arrive: Arrivals, attempts: nat, fails: nat, points: seq<Point>)
    requires Underway(c, t, was, arrive, attempts, fails, points)
    ensures t.starts != [] && t.thread == Traj(|t.starts| - 1, Looping)
    ensures t.result == TRAJECTORY_RESULT_SUCCESS || t.result == TRAJECTORY_RESULT_FAILURE
    ensures Last(t).results == [] && Last(t).moves == MovesOf(points, was)
  {
    hide MovesOf, Draining, Silence, SilentReads;
  }

  /** The motion part of EnterNewMode. */
  function EnteredMotion(m: Motion, newMode: int, actual: Joints): Motion {
    if newMode == MODE_SPEEDL then EnterSession(m, SpeedL, AT_REST)
    else if newMode == MODE_SPEEDJ then EnterSession(m, SpeedJ, AT_REST)
    else if newMode == MODE_SERVOJ then EnterSession(m, Servo, actual)
    else m
  }

  /** The motion part of ApplyServo, and whether the script halted. */
  function ServoOutcome(c: Config, m: Motion, target: Joints, actual: Joints, haltReturns: bool): (Motion, bool) {
    if !m.checkPending then (AcceptTarget(m, Servo, Unvetted(target)), false)
    else if WithinLimit(target, actual, c.startDeltaLimit) then
      (AcceptTarget(m.(checkPending := false), Servo, Vetted(target, actual)), false)
    else (m, !haltReturns)
  }

  /** The steps of the main loop for one packet, no other thread in between. */
  function OnePacket(c: Config, s: ScriptState.Script, p: Packet, stopping: seq<Point>, applying: seq<Point>,
                     actual: Joints, haltReturns: bool): ScriptState.Script
  {
    var received := Step(c, s, Receive(p));
    var switched := if received.main.Stopping? then Step(c, Step(c, received, StopOutgoing(stopping)), EnterMode(actual))
                    else received;
    Step(c, switched, Apply(applying, actual, haltReturns))
  }

  lemma OnePacketSteps(c: Config, s: ScriptState.Script, p: Packet, stopping: seq<Point>, applying: seq<Point>,
                       actual: Joints, haltReturns: bool)
    requires s.main.Awaiting? && !s.halted && s.mode > MODE_STOPPED
    ensures OnePacket(c, s, p, stopping, applying, actual, haltReturns)
            == Step(c, if s.mode != NewMode(p)
                       then Step(c, Step(c, s.(main := Stopping(p)), StopOutgoing(stopping)), EnterMode(actual))
                       else s.(main := Applying(p)), Apply(applying, actual, haltReturns))
  {
    hide StopMode, ScriptState.EnterNewMode, ApplyMode;
  }

  lemma ReceivingStep(c: Config, s: ScriptState.Script)
    requires s.main.Awaiting? && !s.halted && s.mode > MODE_STOPPED
    ensures Step(c, s, ReceiveTimeout) == s.(mode := MODE_STOPPED, timedOut := true)
  {
  }

  /** OnePacket is a run of the state machine, so what holds after every run holds after every packet. */
  lemma OnePacketIsARun(c: Config, start: Joints, run: seq<Action>, p: Packet, stopping: seq<Point>, applying: seq<Point>,
                        actual: Joints, haltReturns: bool)
    requires Exec(c, start, run).main.Awaiting?
    ensures Exec(c, start, run + [Receive(p)] + [StopOutgoing(stopping)] + [EnterMode(actual)]
                           + [Apply(applying, actual, haltReturns)])
            == OnePacket(c, Exec(c, start, run), p, stopping, applying, actual, haltReturns)
  {
    hide Exec, StopMode, ScriptState.EnterNewMode, ApplyMode;
    var r := Next(c, start, run, Receive(p));
    r := Next(c, start, r, StopOutgoing(stopping));
    r := Next(c, start, r, EnterMode(actual));
    r := Next(c, start, r, Apply(applying, actual, haltReturns));
  }

  // What the three steps of one packet do to the whole state, in the terms of the methods above.

  lemma StoppingStep(c: Config, s: ScriptState.Script, drained: seq<Point>)
    requires !s.halted && s.main.Stopping? && CanDrain(s.traj, drained)
    ensures Step(c, s, StopOutgoing(drained)) == s.(
              main := Entering(s.main.packet),
              traj := if s.mode == MODE_TRAJECTORY then ScriptState.CancelTrajectory(s.traj, drained) else s.traj,
              robotInFreedrive := s.robotInFreedrive && !(s.mode == MODE_FREEDRIVE && s.freedriveActive),
              freedriveActive := s.freedriveActive && s.mode != MODE_FREEDRIVE,
              motion := s.motion.(thread := if s.mode == MODE_TRAJECTORY || s.mode == MODE_FREEDRIVE
                                            then s.motion.thread else NoMove))
  {
    hide ScriptState.CancelTrajectory;
  }

  lemma EnteringStep(c: Config, s: ScriptState.Script, actual: Joints)
    requires !s.halted && s.main.Entering?
    ensures Step(c, s, EnterMode(actual)) == s.(
              mode := NewMode(s.main.packet), main := Applying(s.main.packet),
              motion := EnteredMotion(s.motion, NewMode(s.main.packet), actual))
  {
    hide EnterSession;
  }

  /** The motion part of an Apply step, and whether the script halted. */
  function MotionOutcome(c: Config, mode: int, m: Motion, target: Joints, actual: Joints, haltReturns: bool): (Motion, bool) {
    if mode == MODE_SERVOJ then ServoOutcome(c, m, target, actual, haltReturns)
    else if mode == MODE_SPEEDL then (AcceptTarget(m, SpeedL, Unvetted(target)), false)
    else if mode == MODE_SPEEDJ then (AcceptTarget(m, SpeedJ, Unvetted(target)), false)
    else (m, false)
  }

  function TrajectoryOutcome(mode: int, t: Trajectory, p: Packet, drained: seq<Point>): Trajectory {
    if mode == MODE_TRAJECTORY && p[2] == TRAJECTORY_ACTION_START then StartTrajectory(t, p[3], drained)
    else if mode == MODE_TRAJECTORY && p[2] == TRAJECTORY_ACTION_CANCEL then ScriptState.CancelTrajectory(t, drained)
    else t
  }

  function FreedriveOutcome(mode: int, on: bool, p: Packet): bool {
    if mode == MODE_FREEDRIVE && p[2] == FREEDRIVE_START then true
    else if mode == MODE_FREEDRIVE && p[2] == FREEDRIVE_END then false
    else on
  }

  lemma OtherModesKeep(c: Config, s: ScriptState.Script, p: Packet, actual: Joints, haltReturns: bool)
    ensures !(s.mode == MODE_SERVOJ || s.mode == MODE_SPEEDL || s.mode == MODE_SPEEDJ) ==>
              MotionOutcome(c, s.mode, s.motion, Decode(p, 2, POS_ZOOM_RATIO), actual, haltReturns) == (s.motion, false)
    ensures s.mode != MODE_TRAJECTORY ==> TrajectoryOutcome(s.mode, s.traj, p, []) == s.traj
    ensures s.mode != MODE_FREEDRIVE ==>
              && FreedriveOutcome(s.mode, s.robotInFreedrive, p) == s.robotInFreedrive
              && FreedriveOutcome(s.mode, s.freedriveActive, p) == s.freedriveActive
  {
  }

  lemma ApplyingStep(c: Config, s: ScriptState.Script, drained: seq<Point>, actual: Joints, haltReturns: bool)
    requires !s.halted && s.main.Applying? && CanDrain(s.traj, drained)
    ensures var p := s.main.packet;
            var outcome := MotionOutcome(c, s.mode, s.motion, Decode(p, 2, POS_ZOOM_RATIO), actual, haltReturns);
            Step(c, s, Apply(drained, actual, haltReturns)) == s.(
              main := Awaiting, motion := outcome.0, halted := outcome.1,
              traj := TrajectoryOutcome(s.mode, s.traj, p, drained),
              robotInFreedrive := FreedriveOutcome(s.mode, s.robotInFreedrive, p),
              freedriveActive := FreedriveOutcome(s.mode, s.freedriveActive, p))
  {
    hide Decode, WithinLimit, AcceptTarget, ScriptState.CancelTrajectory, StartTrajectory;
  }

  class Script {
    const config: Config
    var controlMode: int
    var cmdServoJoints: array<real>
    var cmdSpeedJoint: array<real>
    var cmdSpeedlToolSpeed: array<real>
    var servoStartCheckPending: bool
    var moveThread: MoveThread
    var trajectoryPointNum: int
    var trajectoryResult: int
    var trajectoryPointWait: real
    var trajectoryActive: bool
    var trajectoryThread: TrajThread
    var freedriveActive: bool
    var robotInFreedrive: bool
    var halted: bool
    var threadsStarted: nat
    ghost var sessions: seq<Session>
    ghost var commands: seq<Command>
    ghost var starts: seq<Start>
    ghost var consumed: seq<Point>
    ghost var timedOut: bool

    ghost predicate Valid()
      reads this
    {
      && config.steptime > 0.0 && config.pointTimeout >= 0.0
      && threadsStarted == |starts|
      && cmdServoJoints.Length == 6 && cmdSpeedJoint.Length == 6 && cmdSpeedlToolSpeed.Length == 6
    }

    ghost function MotionState(): Motion
      requires Valid()
      reads this, cmdServoJoints, cmdSpeedJoint, cmdSpeedlToolSpeed
    {
      Motion(moveThread,
             map[Servo := cmdServoJoints[..], SpeedJ := cmdSpeedJoint[..], SpeedL := cmdSpeedlToolSpeed[..]],
             servoStartCheckPending, sessions, commands)
    }

    ghost function TrajState(): Trajectory
      reads this
    {
      Trajectory(trajectoryThread, trajectoryPointNum, trajectoryResult, trajectoryPointWait, trajectoryActive,
                 starts, consumed)
    }

    ghost function Whole(main: MainPc): ScriptState.Script
      requires Valid()
      reads this, cmdServoJoints, cmdSpeedJoint, cmdSpeedlToolSpeed
    {
      ScriptState.Script(controlMode, main, MotionState(), TrajState(), freedriveActive, robotInFreedrive, timedOut, halted)
    }

    /** The list that holds a kind's setpoint. */
    function ListFor(k: MoveKind): array<real>
      reads this
    {
      match k case Servo => cmdServoJoints case SpeedJ => cmdSpeedJoint case SpeedL => cmdSpeedlToolSpeed
    }

    /** initializeControlState(). */
    constructor (config: Config, actual: Joints)
      requires config.steptime > 0.0 && config.pointTimeout >= 0.0
      ensures Valid() && this.config == config
      ensures Whole(Awaiting) == Initial(actual)
    {
      this.config := config;
      controlMode := MODE_UNINITIALIZED;
      cmdSpeedlToolSpeed := new real[6](_ => 0.0);
      cmdSpeedJoint := new real[6](_ => 0.0);
      cmdServoJoints := new real[6](i requires 0 <= i < 6 => actual[i]);
      servoStartCheckPending := false;
      moveThread := NoMove;
      trajectoryPointNum, trajectoryResult, trajectoryPointWait := 0, TRAJECTORY_RESULT_SUCCESS, 0.0;
      trajectoryActive, trajectoryThread := false, NoTraj;
      freedriveActive, robotInFreedrive, halted := false, false, false;
      threadsStarted := 0;
      sessions, commands, starts, consumed, timedOut := [], [], [], [], false;
      new;
      assert cmdServoJoints[..] == actual && cmdSpeedJoint[..] == AT_REST && cmdSpeedlToolSpeed[..] == AT_REST;
    }

    /** decodeVector6: every call makes a list of its own, so one stored earlier is never changed. */
    static method DecodeVector6(words: seq<int>, first: nat, ratio: real) returns (values: array<real>)
      requires first + 6 <= |words| && ratio != 0.0
      ensures fresh(values) && values.Length == 6 && values[..] == Decode(words, first, ratio)
      ensures forall i :: 0 <= i < 6 ==> values[i] == words[first + i] as real / ratio
    {
      values := new real[6](_ => 0.0);
      for i := 0 to 6
        invariant forall j :: 0 <= j < i ==> values[j] == words[first + j] as real / ratio
      {
        values[i] := words[first + i] as real / ratio;
      }
    }

    /** get_actual_joint_positions() and literal lists also make new lists. */
    static method ListOf(joints: Joints) returns (values: array<real>)
      ensures fresh(values) && values.Length == 6 && values[..] == joints
    {
      values := new real[6](i requires 0 <= i < 6 => joints[i]);
      assert values[..] == joints;
    }

    /** verifyServoStartSetpoint: stops at the first joint beyond the limit, and halts. */
    method VerifyServoStartSetpoint(target: array<real>, actual: Joints, haltReturns: bool) returns (ok: bool)
      requires target.Length == 6
      modifies this`halted
      ensures ok <==> WithinLimit(target[..], actual, config.startDeltaLimit)
      ensures ok <==> forall i :: 0 <= i < 6 ==>
                        actual[i] - config.startDeltaLimit <= target[i] <= actual[i] + config.startDeltaLimit
      ensures halted == (old(halted) || (!ok && !haltReturns))
    {
      var i := 0;
      while i < 6
        invariant 0 <= i <= 6
        invariant forall j :: 0 <= j < i ==> Gap(target[..][j], actual[j]) <= config.startDeltaLimit
      {
        var delta := Gap(target[i], actual[i]);
        if delta > config.startDeltaLimit {
          if !haltReturns {
            halted := true;
          }
          assert Gap(target[..][i], actual[i]) > config.startDeltaLimit;
          return false;
        }
        i := i + 1;
      }
      return true;
    }

    /** trajectoryClearPoints. For every arrival pattern it ends, leaves no point counted, consumes at
        most the points that were left, in the order they came, and makes at most
        n * (floor(timeout / steptime) + 1) reads. It gives up early only after that many silent reads. */
    method TrajectoryClearPoints(arrive: Arrivals) returns (drained: seq<Point>, attempts: nat)
      requires Valid()
      modifies this`trajectoryPointNum, this`consumed, this`starts
      ensures Valid() && CanDrain(old(TrajState()), drained) && TrajState() == ClearPoints(old(TrajState()), drained)
      ensures drained == Received(arrive, attempts)
      ensures attempts <= AtLeastZero(old(trajectoryPointNum)) * SilentReads(config.pointTimeout, config.steptime)
      ensures |drained| < AtLeastZero(old(trajectoryPointNum)) ==>
                var b := SilentReads(config.pointTimeout, config.steptime);
                b <= attempts && forall k :: attempts - b <= k < attempts ==> arrive(k) == Nothing
    {
      hide Silence, SilentReads, Draining, Received, ClearPoints;
      var silence := 0.0;
      drained, attempts := [], 0;
      ghost var was := trajectoryPointNum;
      ghost var n, budget := AtLeastZero(was), SilentReads(config.pointTimeout, config.steptime);
      ghost var fails: int := 0;
      DrainBegins(n, arrive, config.pointTimeout, config.steptime);
      SilenceExpires(config.pointTimeout, config.steptime, 0);
      while trajectoryPointNum > 0
        invariant 0 <= fails && Draining(n, AtLeastZero(trajectoryPointNum), arrive, attempts, fails, drained, budget)
        invariant trajectoryPointNum <= 0 ==> trajectoryPointNum == (if was > 0 then 0 else was)
        invariant silence == Silence(fails, config.steptime)
        decreases trajectoryPointNum, budget as int - fails
        modifies this`trajectoryPointNum
      {
        SilenceExpires(config.pointTimeout, config.steptime, fails);
        DrainBounds(n, trajectoryPointNum, arrive, attempts, fails, drained, budget);
        var rawPoint := arrive(attempts);
        match rawPoint {
          case Got(p) =>
            DrainGot(n, trajectoryPointNum, arrive, attempts, fails, drained, budget, p);
            drained := drained + [p];
            trajectoryPointNum := trajectoryPointNum - 1;
            silence := 0.0;
            fails := 0;
          case Nothing =>
            DrainNothing(n, trajectoryPointNum, arrive, attempts, fails, drained, budget);
            silence := silence + config.steptime;
            fails := fails + 1;
            if silence > config.pointTimeout {
              trajectoryPointNum := 0;
            }
        }
        attempts := attempts + 1;
      }
      DrainEnds(n, arrive, attempts, fails, drained, budget);
      NoteDrained(was, drained);
    }

    /** The history's side of a drain that began with `was` points left. */
    ghost method NoteDrained(was: int, drained: seq<Point>)
      requires trajectoryPointNum == if was > 0 then 0 else was
      modifies this`consumed, this`starts
      ensures |starts| == |old(starts)| && TrajState() == ClearPoints(old(TrajState()).(pointsLeft := was), drained)
    {
      starts := ClearPoints(TrajState(), drained).starts;
      consumed := consumed + drained;
    }

    /** cancelTrajectory. */
    method CancelTrajectory(arrive: Arrivals) returns (drained: seq<Point>)
      requires Valid()
      modifies this`trajectoryThread, this`trajectoryPointNum, this`trajectoryActive, this`consumed, this`starts
      ensures Valid() && CanDrain(old(TrajState()), drained)
      ensures TrajState() == ScriptState.CancelTrajectory(old(TrajState()), drained)
      ensures Cancelled(old(TrajState()), TrajState(), drained)
    {
      StopTrajectoryThread();
      var attempts;
      drained, attempts := TrajectoryClearPoints(arrive);
      hide StopTraj, ClearPoints, Cancelled;
      CancelMeans(old(TrajState()), drained);
      if trajectoryActive {
        trajectoryActive := false;
        SendResult(TRAJECTORY_RESULT_CANCELED);
      }
    }

    /** socket_send_int on the trajectory socket: the host takes it as the result of the latest START. */
    ghost method SendResult(result: int)
      modifies this`starts
      ensures |starts| == |old(starts)|
      ensures starts == if old(starts) == [] then []
                        else var x := old(starts)[|starts| - 1];
                             old(starts)[|starts| - 1 := x.(results := x.results + [result])]
    {
      if starts != [] {
        var x := starts[|starts| - 1];
        starts := starts[|starts| - 1 := x.(results := x.results + [result])];
      }
    }

    /** stop_thread(trajectory_thread_handle); the handle is cleared with it. */
    method StopTrajectoryThread()
      modifies this`trajectoryThread, this`starts
      ensures |starts| == |old(starts)| && TrajState() == StopTraj(old(TrajState()))
    {
      starts := StopTraj(TrajState()).starts;
      trajectoryThread := NoTraj;
    }

    /** The first half of handleControlModeSwitch: stop the outgoing mode. */
    method StopOutgoingMode(ghost packet: Packet, arrive: Arrivals) returns (drained: seq<Point>)
      requires Valid() && !halted
      modifies this`trajectoryThread, this`trajectoryPointNum, this`trajectoryActive, this`consumed, this`starts,
               this`robotInFreedrive, this`freedriveActive, this`moveThread
      ensures Valid() && CanDrain(old(TrajState()), drained)
      ensures Whole(Entering(packet)) == Step(config, old(Whole(Stopping(packet))), StopOutgoing(drained))
    {
      hide Step, ScriptState.CancelTrajectory;
      drained := [];
      if controlMode == MODE_TRAJECTORY {
        drained := CancelTrajectory(arrive);
      } else if controlMode == MODE_FREEDRIVE {
        if freedriveActive {
          robotInFreedrive := false;
          freedriveActive := false;
        }
      } else {
        moveThread := NoMove;
      }
      StoppingStep(config, old(Whole(Stopping(packet))), drained);
    }

    /** Assigns one of the three setpoint variables a list; the list it held before is not written to. */
    method SetSetpoint(k: MoveKind, joints: array<real>)
      requires Valid() && joints.Length == 6
      modifies this`cmdServoJoints, this`cmdSpeedJoint, this`cmdSpeedlToolSpeed
      ensures Valid()
      ensures MotionState() == old(MotionState()).(setpoint := old(MotionState()).setpoint[k := joints[..]])
      ensures ListFor(k) == joints
    {
      match k
      case Servo => cmdServoJoints := joints;
      case SpeedJ => cmdSpeedJoint := joints;
      case SpeedL => cmdSpeedlToolSpeed := joints;
    }

    /** The second half: take over the new mode and start its motion thread from a fresh setpoint. */
    method EnterNewMode(newMode: int, actual: Joints)
      requires Valid()
      modifies this`controlMode, this`cmdServoJoints, this`cmdSpeedJoint, this`cmdSpeedlToolSpeed,
               this`servoStartCheckPending, this`moveThread, this`sessions
      ensures Valid() && controlMode == newMode
      ensures MotionState() == EnteredMotion(old(MotionState()), newMode, actual)
      ensures forall k: MoveKind :: newMode == ModeOf(k) ==> fresh(ListFor(k))
      ensures newMode == MODE_SERVOJ ==> cmdServoJoints[..] == actual && servoStartCheckPending
      ensures newMode == MODE_SPEEDJ ==> cmdSpeedJoint[..] == [0.0, 0.0, 0.0, 0.0, 0.0, 0.0]
      ensures newMode == MODE_SPEEDL ==> cmdSpeedlToolSpeed[..] == [0.0, 0.0, 0.0, 0.0, 0.0, 0.0]
    {
      controlMode := newMode;
      if controlMode == MODE_SPEEDL {
        var rest := ListOf(AT_REST);
        SetSetpoint(SpeedL, rest);
        moveThread := Move(SpeedL, AtLoop);
        sessions := sessions + [Session(SpeedL, AT_REST, [])];
      } else if controlMode == MODE_SPEEDJ {
        var rest := ListOf(AT_REST);
        SetSetpoint(SpeedJ, rest);
        moveThread := Move(SpeedJ, AtLoop);
        sessions := sessions + [Session(SpeedJ, AT_REST, [])];
      } else if controlMode == MODE_SERVOJ {
        var here := ListOf(actual);
        SetSetpoint(Servo, here);
        servoStartCheckPending := true;
        moveThread := Move(Servo, AtLoop);
        sessions := sessions + [Session(Servo, actual, [])];
      }
    }

    /** The servo branch of applyModeCommand: the first target of a session has to pass the check. */
    method ApplyServoTarget(joints: array<real>, actual: Joints, haltReturns: bool)
      requires Valid() && !halted && joints.Length == 6
      modifies this`cmdServoJoints, this`cmdSpeedJoint, this`cmdSpeedlToolSpeed, this`servoStartCheckPending,
               this`halted, this`sessions
      ensures Valid()
      ensures MotionState() == ServoOutcome(config, old(MotionState()), joints[..], actual, haltReturns).0
      ensures halted == ServoOutcome(config, old(MotionState()), joints[..], actual, haltReturns).1
    {
      hide AcceptTarget, WithinLimit;
      if servoStartCheckPending {
        var ok := VerifyServoStartSetpoint(joints, actual, haltReturns);
        if ok {
          servoStartCheckPending := false;
          Store(Servo, joints, Vetted(joints[..], actual));
        }
      } else {
        Store(Servo, joints, Unvetted(joints[..]));
      }
    }

    /** An accepted target: the list decoded for it becomes the setpoint. */
    method Store(k: MoveKind, joints: array<real>, ghost accepted: Accepted)
      requires Valid() && joints.Length == 6 && accepted.target == joints[..]
      modifies this`cmdServoJoints, this`cmdSpeedJoint, this`cmdSpeedlToolSpeed, this`sessions
      ensures Valid() && MotionState() == AcceptTarget(old(MotionState()), k, accepted)
    {
      sessions := AcceptTarget(MotionState(), k, accepted).sessions;
      SetSetpoint(k, joints);
    }

    /** applyModeCommand in the motion modes. The list decoded here is the one stored; lists stored
        before keep their contents. */
    method ApplyMotionCommand(packet: Packet, actual: Joints, haltReturns: bool)
      requires Valid() && !halted
      requires controlMode == MODE_SERVOJ || controlMode == MODE_SPEEDL || controlMode == MODE_SPEEDJ
      modifies this`cmdServoJoints, this`cmdSpeedJoint, this`cmdSpeedlToolSpeed, this`servoStartCheckPending,
               this`halted, this`sessions
      ensures Valid()
      ensures var outcome := MotionOutcome(config, controlMode, old(MotionState()), Decode(packet, 2, POS_ZOOM_RATIO),
                                           actual, haltReturns);
              MotionState() == outcome.0 && halted == outcome.1
    {
      var joints := DecodeVector6(packet, 2, POS_ZOOM_RATIO);
      hide Decode, ServoOutcome, AcceptTarget;
      if controlMode == MODE_SERVOJ {
        ApplyServoTarget(joints, actual, haltReturns);
      } else if controlMode == MODE_SPEEDL {
        Store(SpeedL, joints, Unvetted(joints[..]));
      } else {
        Store(SpeedJ, joints, Unvetted(joints[..]));
      }
    }

    /** applyModeCommand in MODE_TRAJECTORY. */
    method ApplyTrajectoryCommand(packet: Packet, arrive: Arrivals) returns (drained: seq<Point>)
      requires Valid()
      modifies this`trajectoryThread, this`trajectoryPointNum, this`trajectoryActive, this`consumed, this`starts,
               this`threadsStarted
      ensures Valid() && CanDrain(old(TrajState()), drained)
      ensures TrajState() == TrajectoryOutcome(MODE_TRAJECTORY, old(TrajState()), packet, drained)
    {
      hide StartTrajectory, StopTraj, ClearPoints, ScriptState.CancelTrajectory;
      drained := [];
      if packet[2] == TRAJECTORY_ACTION_START {
        drained := StartNewTrajectory(packet[3], arrive);
      } else if packet[2] == TRAJECTORY_ACTION_CANCEL {
        drained := CancelTrajectory(arrive);
      }
    }

    /** applyModeCommand in MODE_FREEDRIVE. */
    method ApplyFreedriveCommand(packet: Packet)
      modifies this`robotInFreedrive, this`freedriveActive
      ensures robotInFreedrive == FreedriveOutcome(MODE_FREEDRIVE, old(robotInFreedrive), packet)
      ensures freedriveActive == FreedriveOutcome(MODE_FREEDRIVE, old(freedriveActive), packet)
      ensures old(robotInFreedrive == freedriveActive) ==> robotInFreedrive == freedriveActive
    {
      if packet[2] == FREEDRIVE_START {
        robotInFreedrive := true;
        freedriveActive := true;
      } else if packet[2] == FREEDRIVE_END {
        robotInFreedrive := false;
        freedriveActive := false;
      }
    }

    method StartNewTrajectory(n: int, arrive: Arrivals) returns (drained: seq<Point>)
      requires Valid()
      modifies this`trajectoryThread, this`trajectoryPointNum, this`trajectoryActive, this`consumed, this`starts,
               this`threadsStarted
      ensures Valid() && CanDrain(old(TrajState()), drained)
      ensures TrajState() == StartTrajectory(old(TrajState()), n, drained)
    {
      StopTrajectoryThread();
      var attempts;
      drained, attempts := TrajectoryClearPoints(arrive);
      hide StopTraj, ClearPoints;
      ghost var open := OpenStart(TrajState(), n);
      trajectoryPointNum := n;
      trajectoryActive := true;
      trajectoryThread := Traj(threadsStarted, Beginning);
      threadsStarted := threadsStarted + 1;
      starts := open.starts;
    }

    /** runTrajectoryIteration, read to move: the two steps the thread takes when it is not cut short. */
    method RunTrajectoryIteration(read: ReadResult)
      requires Valid() && trajectoryThread.Traj? && trajectoryThread.pc.Looping? && starts != []
      requires trajectoryPointNum > 0 && trajectoryResult == TRAJECTORY_RESULT_SUCCESS
      modifies this`trajectoryPointNum, this`trajectoryResult, this`trajectoryPointWait, this`consumed, this`starts
      ensures Valid()
      ensures TrajState() == var once := TrajStep(config, old(TrajState()), read);
                             if read.Got? then TrajStep(config, once, Nothing) else once
    {
      hide Decode;
      match read
      case Got(rawPoint) =>
        trajectoryPointWait := 0.0;
        trajectoryPointNum := trajectoryPointNum - 1;
        var blendRadius := 0.0;
        if trajectoryPointNum > 0 {
          blendRadius := rawPoint[20] as real / POS_ZOOM_RATIO;
        }
        consumed := consumed + [rawPoint];
        ghost var x := starts[|starts| - 1];
        starts := starts[|starts| - 1 := x.(taken := x.taken + 1, handled := x.handled + 1,
                                            moves := x.moves + MoveFor(rawPoint, blendRadius))];
      case Nothing =>
        trajectoryPointWait := trajectoryPointWait + config.steptime;
        if trajectoryPointWait > config.pointTimeout {
          trajectoryResult := TRAJECTORY_RESULT_FAILURE;
        }
    }

    /** handleControlModeSwitch: two steps of the main loop. */
    method HandleControlModeSwitch(packet: Packet, arrive: Arrivals, actual: Joints) returns (drained: seq<Point>)
      requires Valid() && !halted
      modifies this`trajectoryThread, this`trajectoryPointNum, this`trajectoryActive, this`consumed, this`starts,
               this`robotInFreedrive, this`freedriveActive, this`moveThread, this`controlMode, this`cmdServoJoints,
               this`cmdSpeedJoint, this`cmdSpeedlToolSpeed, this`servoStartCheckPending, this`sessions
      ensures Valid() && controlMode == NewMode(packet) && CanDrain(old(TrajState()), drained)
      ensures Whole(Applying(packet))
              == Step(config, Step(config, old(Whole(Stopping(packet))), StopOutgoing(drained)), EnterMode(actual))
    {
      hide Step, EnteredMotion, ScriptState.CancelTrajectory;
      drained := StopOutgoingMode(packet, arrive);
      EnteringStep(config, Whole(Entering(packet)), actual);
      EnterNewMode(NewMode(packet), actual);
    }

    /** applyModeCommand: one step of the main loop. */
    method ApplyModeCommand(packet: Packet, arrive: Arrivals, actual: Joints, haltReturns: bool) returns (drained: seq<Point>)
      requires Valid() && !halted
      modifies this`trajectoryThread, this`trajectoryPointNum, this`trajectoryActive, this`consumed, this`starts,
               this`threadsStarted, this`robotInFreedrive, this`freedriveActive, this`cmdServoJoints,
               this`cmdSpeedJoint, this`cmdSpeedlToolSpeed, this`servoStartCheckPending, this`halted, this`sessions
      ensures Valid() && CanDrain(old(TrajState()), drained)
      ensures Whole(Awaiting) == Step(config, old(Whole(Applying(packet))), Apply(drained, actual, haltReturns))
    {
      hide Step, Decode, MotionOutcome, TrajectoryOutcome, FreedriveOutcome;
      OtherModesKeep(config, old(Whole(Awaiting)), packet, actual, haltReturns);
      drained := [];
      if controlMode == MODE_SERVOJ || controlMode == MODE_SPEEDL || controlMode == MODE_SPEEDJ {
        ApplyMotionCommand(packet, actual, haltReturns);
      } else if controlMode == MODE_TRAJECTORY {
        drained := ApplyTrajectoryCommand(packet, arrive);
      } else if controlMode == MODE_FREEDRIVE {
        ApplyFreedriveCommand(packet);
      }
      ApplyingStep(config, old(Whole(Applying(packet))), drained, actual, haltReturns);
    }

    /** runControlLoopIteration: a packet is received, the mode switched if it asks for another one, and the
        command applied; without a packet the script stops. */
    method RunControlLoopIteration(received: Option<Packet>, arriveStopping: Arrivals, arriveApplying: Arrivals,
                                   actual: Joints, haltReturns: bool)
      returns (stopping: seq<Point>, applying: seq<Point>)
      requires Valid() && !halted && controlMode > MODE_STOPPED
      modifies this
      ensures Valid()
      ensures received.None? ==> Whole(Awaiting) == Step(config, old(Whole(Awaiting)), ReceiveTimeout)
      ensures received.Some? ==>
                Whole(Awaiting)
                == OnePacket(config, old(Whole(Awaiting)), received.value, stopping, applying, actual, haltReturns)
    {
      hide Step, OnePacket;
      ReceivingStep(config, Whole(Awaiting));
      stopping, applying := [], [];
      match received
      case None =>
        controlMode := MODE_STOPPED;
        timedOut := true;
      case Some(packet) =>
        if controlMode != NewMode(packet) {
          stopping := HandleControlModeSwitch(packet, arriveStopping, actual);
        }
        applying := ApplyModeCommand(packet, arriveApplying, actual, haltReturns);
        OnePacketSteps(config, old(Whole(Awaiting)), packet, stopping, applying, actual, haltReturns);
    }

    /** trajectoryThread, not stopped by anyone. For every arrival pattern it ends, with no points counted
        and exactly one result: SUCCESS if all n points came, FAILURE after more than the timeout of
        silence otherwise. Its moves are those of the points it read. */
    method TrajectoryThread(arrive: Arrivals) returns (points: seq<Point>, attempts: nat)
      requires Valid() && starts != [] && trajectoryThread == Traj(|starts| - 1, Beginning)
      requires var x := Last(TrajState());
               x.n == trajectoryPointNum && x.taken == x.handled == 0 && x.moves == [] && x.results == []
      modifies this`trajectoryPointNum, this`trajectoryResult, this`trajectoryPointWait, this`trajectoryActive,
               this`trajectoryThread, this`consumed, this`starts
      ensures Valid() && trajectoryThread == NoTraj && !trajectoryActive && trajectoryPointNum <= 0
      ensures |points| <= AtLeastZero(old(trajectoryPointNum)) && points == Received(arrive, attempts)
      ensures attempts <= AtLeastZero(old(trajectoryPointNum)) * SilentReads(config.pointTimeout, config.steptime)
      ensures |points| < AtLeastZero(old(trajectoryPointNum)) ==>
                var b := SilentReads(config.pointTimeout, config.steptime);
                b <= attempts && forall k :: attempts - b <= k < attempts ==> arrive(k) == Nothing
      ensures |starts| == |old(starts)|
      ensures var x := starts[|starts| - 1];
              && x.moves == MovesOf(points, old(trajectoryPointNum))
              && x.results == [if |points| == AtLeastZero(old(trajectoryPointNum)) then TRAJECTORY_RESULT_SUCCESS
                               else TRAJECTORY_RESULT_FAILURE]
    {
      hide Underway, TrajStep, MovesOf, SilentReads, Received;
      ghost var was := trajectoryPointNum;
      ghost var fails: int := 0;
      points, attempts := [], 0;
      BeginTrajectory(arrive);
      ghost var budget := SilentReads(config.pointTimeout, config.steptime);
      UnderwayEnds(config, TrajState(), was, arrive, attempts, fails, points);
      while trajectoryPointNum > 0 && trajectoryResult == TRAJECTORY_RESULT_SUCCESS
        invariant Valid() && |starts| == |old(starts)| && 0 <= fails
        invariant Underway(config, TrajState(), was, arrive, attempts, fails, points)
        decreases trajectoryPointNum, budget as int - fails
        modifies this`trajectoryPointNum, this`trajectoryResult, this`trajectoryPointWait, this`consumed, this`starts
      {
        UnderwayEnds(config, TrajState(), was, arrive, attempts, fails, points);
        var rawPoint := arrive(attempts);
        UnderwayMeans(config, TrajState(), was, arrive, attempts, fails, points);
        if rawPoint.Got? {
          UnderwayRead(config, TrajState(), was, arrive, attempts, fails, points);
          points := points + [rawPoint.point];
          fails := 0;
        } else {
          UnderwaySilent(config, TrajState(), was, arrive, attempts, fails, points);
          fails := fails + 1;
        }
        RunTrajectoryIteration(rawPoint);
        attempts := attempts + 1;
      }
      UnderwayEnds(config, TrajState(), was, arrive, attempts, fails, points);
      UnderwayMeans(config, TrajState(), was, arrive, attempts, fails, points);
      EndTrajectory();
    }

    method BeginTrajectory(ghost arrive: Arrivals)
      requires Valid() && starts != [] && trajectoryThread == Traj(|starts| - 1, Beginning)
      requires var x := Last(TrajState());
               x.n == trajectoryPointNum && x.taken == x.handled == 0 && x.moves == [] && x.results == []
      modifies this`trajectoryResult, this`trajectoryPointWait, this`trajectoryThread
      ensures Valid() && Underway(config, TrajState(), trajectoryPointNum, arrive, 0, 0, [])
    {
      hide Underway, Silence;
      UnderwayBegins(config, TrajState(), arrive);
      trajectoryResult := TRAJECTORY_RESULT_SUCCESS;
      trajectoryPointWait := 0.0;
      trajectoryThread := Traj(trajectoryThread.id, Looping);
    }

    /** A failed trajectory abandons its points. The flag is cleared before the result goes out. */
    method EndTrajectory()
      requires Valid() && starts != []
      modifies this`trajectoryPointNum, this`trajectoryActive, this`trajectoryThread, this`starts
      ensures Valid() && trajectoryThread == NoTraj && !trajectoryActive
      ensures trajectoryPointNum == if trajectoryResult == TRAJECTORY_RESULT_FAILURE then 0 else old(trajectoryPointNum)
      ensures |starts| == |old(starts)|
      ensures var x := old(starts)[|starts| - 1];
              starts == old(starts)[|starts| - 1 := x.(results := x.results + [trajectoryResult])]
    {
      if trajectoryResult == TRAJECTORY_RESULT_FAILURE {
        trajectoryPointNum := 0;
      }
      trajectoryActive := false;
      SendResult(trajectoryResult);
      trajectoryThread := NoTraj;
    }
  }
}
