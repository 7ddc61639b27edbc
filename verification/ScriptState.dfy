/** external_control.script as interleaved steps: the main loop, one motion thread, one trajectory
    thread. The state holds the script's globals, each thread's place in its code, and a history the
    properties speak about. stop_thread is taken to be synchronous: when it returns, its thread runs no
    further statement. */
module ScriptState {
  import opened RobotJoints

  const MODE_STOPPED := -2
  const MODE_UNINITIALIZED := -1
  const MODE_SERVOJ := 1
  const MODE_SPEEDJ := 2
  const MODE_TRAJECTORY := 3
  const MODE_SPEEDL := 4
  const MODE_FREEDRIVE := 6

  const TRAJECTORY_RESULT_SUCCESS := 0
  const TRAJECTORY_RESULT_CANCELED := 1
  const TRAJECTORY_RESULT_FAILURE := 2

  const TRAJECTORY_ACTION_CANCEL := -1
  const TRAJECTORY_ACTION_START := 1

  const TRAJECTORY_MOTION_JOINT := 0
  const TRAJECTORY_MOTION_CARTESIAN := 1

  const FREEDRIVE_START := 1
  const FREEDRIVE_END := -1

  const REVERSE_DATA_SIZE := 8
  const TRAJECTORY_DATA_SIZE := 21
  const POS_ZOOM_RATIO := 1000000.0
  const TIME_ZOOM_RATIO := 1000.0

  /** What the driver substitutes into the script, and the controller's own step time. */
  datatype Config = Config(startDeltaLimit: real, pointTimeout: real, steptime: real)

  /** A successful read: the count the read itself returns, then the words the host sent. */
  type Packet = p: seq<int> | |p| == REVERSE_DATA_SIZE + 1 witness [0, 0, 0, 0, 0, 0, 0, 0, 0]

  type Point = p: seq<int> | |p| == TRAJECTORY_DATA_SIZE + 1
    witness [0, 0, 0, 0, 0, 0, 0, 0, 0, 0, 0, 0, 0, 0, 0, 0, 0, 0, 0, 0, 0, 0]

  function Decode(words: seq<int>, first: nat, ratio: real): Joints
    requires first + 6 <= |words| && ratio != 0.0
  {
    seq(6, i requires 0 <= i < 6 => words[first + i] as real / ratio)
  }

  function Gap(a: real, b: real): real {
    if a < b then b - a else a - b
  }

  /** The start check: plain differences, joint by joint, never wrapped. */
  predicate WithinLimit(target: Joints, actual: Joints, limit: real) {
    forall i :: 0 <= i < 6 ==> Gap(target[i], actual[i]) <= limit
  }

  // ----- motion: servoj, speedj, speedl -----

  datatype MoveKind = Servo | SpeedJ | SpeedL

  function ModeOf(k: MoveKind): int {
    match k case Servo => MODE_SERVOJ case SpeedJ => MODE_SPEEDJ case SpeedL => MODE_SPEEDL
  }

  /** Where a motion thread stands: about to test control_mode and read its setpoint under the lock;
      holding what it read, after that many targets of the session, about to command it; past its loop,
      about to stop the arm. */
  datatype MovePc = AtLoop | Commanding(arg: Joints, seen: nat) | Leaving

  datatype MoveThread = NoMove | Move(kind: MoveKind, pc: MovePc)

  /** A target the main loop stored, with the actual pose if it was the one that was vetted. */
  datatype Accepted = Vetted(target: Joints, actual: Joints) | Unvetted(target: Joints)

  /** One stay in SERVOJ, SPEEDJ or SPEEDL: the setpoint it began with and the ones accepted since. */
  datatype Session = Session(kind: MoveKind, entry: Joints, accepted: seq<Accepted>)

  /** A servoj, speedj or speedl command, with the session that was current when it was issued and how many
      of the session's targets had been stored when its argument was read. */
  datatype Command = Command(kind: MoveKind, arg: Joints, session: nat, seen: nat)

  datatype Motion = Motion(
    thread: MoveThread, setpoint: map<MoveKind, Joints>, checkPending: bool,
    sessions: seq<Session>, commands: seq<Command>)

  function Setpoint(m: Motion, k: MoveKind): Joints {
    if k in m.setpoint then m.setpoint[k] else AT_REST
  }

  function TargetsSoFar(m: Motion): nat {
    if m.sessions == [] then 0 else |m.sessions[|m.sessions| - 1].accepted|
  }

  function AcceptTarget(m: Motion, k: MoveKind, a: Accepted): Motion {
    var stored := m.(setpoint := m.setpoint[k := a.target]);
    if m.sessions == [] then stored else
    var last := m.sessions[|m.sessions| - 1];
    stored.(sessions := m.sessions[|m.sessions| - 1 := last.(accepted := last.accepted + [a])])
  }

  function EnterSession(m: Motion, k: MoveKind, entry: Joints): Motion {
    Motion(Move(k, AtLoop), m.setpoint[k := entry], k == Servo || m.checkPending,
           m.sessions + [Session(k, entry, [])], m.commands)
  }

  // ----- trajectory -----

  datatype MoveCmd = MoveCmd(motionType: int, target: Joints, time: real, blend: real)

  /** Where the trajectory thread stands. Moving: a point was read and counted, its move is not made
      yet. Failing: past the loop with FAILURE. Clearing: about to clear trajectory_active. Sending:
      cleared, about to send the result. */
  datatype TrajPc = Beginning | Looping | Moving(point: Point, blend: real) | Failing | Clearing | Sending

  datatype TrajThread = NoTraj | Traj(id: nat, pc: TrajPc)

  /** One START: the count it carried, where in the stream of points it began, how many points were read
      for it in all, how many its thread has dealt with, the moves made, the results sent, whether a
      START replaced it while active, whether its thread was stopped between clearing
      trajectory_active and sending. */
  datatype Start = Start(
    n: int, offset: nat, taken: nat, handled: nat, moves: seq<MoveCmd>, results: seq<int>, replaced: bool, cut: bool)

  datatype Trajectory = Trajectory(
    thread: TrajThread, pointsLeft: int, result: int, pointWait: real, active: bool,
    starts: seq<Start>, consumed: seq<Point>)

  predicate Supported(p: Point) {
    p[21] == TRAJECTORY_MOTION_JOINT || p[21] == TRAJECTORY_MOTION_CARTESIAN
  }

  function MoveFor(p: Point, blend: real): seq<MoveCmd> {
    if Supported(p) then [MoveCmd(p[21], Decode(p, 1, POS_ZOOM_RATIO), p[19] as real / TIME_ZOOM_RATIO, blend)] else []
  }

  function Last(t: Trajectory): Start
    requires t.starts != []
  {
    t.starts[|t.starts| - 1]
  }

  function SetLast(t: Trajectory, s: Start): Trajectory
    requires t.starts != []
  {
    t.(starts := t.starts[|t.starts| - 1 := s])
  }

  /** stop_thread on the trajectory thread. */
  function StopTraj(t: Trajectory): Trajectory {
    var stopped := t.(thread := NoTraj);
    if t.starts != [] && t.thread.Traj? && t.thread.pc.Sending? then SetLast(stopped, Last(t).(cut := true)) else stopped
  }

  /** What a drain can consume is at most the points left; ExternalControl has the loop itself. */
  predicate CanDrain(t: Trajectory, drained: seq<Point>) {
    |drained| <= if t.pointsLeft > 0 then t.pointsLeft else 0
  }

  function ClearPoints(t: Trajectory, drained: seq<Point>): Trajectory {
    var cleared := t.(pointsLeft := if t.pointsLeft > 0 then 0 else t.pointsLeft, consumed := t.consumed + drained);
    if t.starts != [] then SetLast(cleared, Last(t).(taken := Last(t).taken + |drained|)) else cleared
  }

  /** A trajectory still active is reported as CANCELED. */
  function ReportCanceled(d: Trajectory): Trajectory {
    if !d.active then d
    else if d.starts == [] then d.(active := false)
    else SetLast(d.(active := false), Last(d).(results := Last(d).results + [TRAJECTORY_RESULT_CANCELED]))
  }

  function CancelTrajectory(t: Trajectory, drained: seq<Point>): Trajectory {
    ReportCanceled(ClearPoints(StopTraj(t), drained))
  }

  /** A trajectory still active is replaced without a result of its own. */
  function OpenStart(d: Trajectory, n: int): Trajectory {
    var marked := if d.starts != [] then SetLast(d, Last(d).(replaced := Last(d).replaced || d.active)) else d;
    marked.(pointsLeft := n, active := true, thread := Traj(|d.starts|, Beginning),
            starts := marked.starts + [Start(n, |d.consumed|, 0, 0, [], [], false, false)])
  }

  function StartTrajectory(t: Trajectory, n: int, drained: seq<Point>): Trajectory {
    OpenStart(ClearPoints(StopTraj(t), drained), n)
  }

  /** The outcome of one read on the trajectory socket. */
  datatype ReadResult = Nothing | Got(point: Point)

  /** One statement group of the trajectory thread. The read and the decrement are one step. */
  function TrajStep(c: Config, t: Trajectory, read: ReadResult): Trajectory {
    if t.thread.NoTraj? || t.starts == [] then t else
    var id := t.thread.id;
    match t.thread.pc
    case Beginning =>
      t.(result := TRAJECTORY_RESULT_SUCCESS, pointWait := 0.0, thread := Traj(id, Looping))
    case Looping =>
      if t.pointsLeft > 0 && t.result == TRAJECTORY_RESULT_SUCCESS then
        match read
        case Got(p) =>
          var blend := if t.pointsLeft - 1 <= 0 then 0.0 else p[20] as real / POS_ZOOM_RATIO;
          SetLast(t, Last(t).(taken := Last(t).taken + 1)).(
            pointWait := 0.0, pointsLeft := t.pointsLeft - 1, consumed := t.consumed + [p],
            thread := Traj(id, Moving(p, blend)))
        case Nothing =>
          var wait := t.pointWait + c.steptime;
          t.(pointWait := wait, result := if wait > c.pointTimeout then TRAJECTORY_RESULT_FAILURE else t.result)
      else
        t.(thread := Traj(id, if t.result == TRAJECTORY_RESULT_FAILURE then Failing else Clearing))
    case Moving(p, blend) =>
      SetLast(t, Last(t).(handled := Last(t).handled + 1, moves := Last(t).moves + MoveFor(p, blend))).(
        thread := Traj(id, Looping))
    case Failing =>
      t.(pointsLeft := 0, thread := Traj(id, Clearing))
    case Clearing =>
      t.(active := false, thread := Traj(id, Sending))
    case Sending =>
      if id < |t.starts| then
        t.(starts := t.starts[id := t.starts[id].(results := t.starts[id].results + [t.result])], thread := NoTraj)
      else t
  }

  // ----- the whole script -----

  /** The main loop: waiting for a packet; with a packet in hand, about to stop the outgoing mode, about
      to enter the new mode, about to apply the command; stopping the threads one by one; gone. */
  datatype MainPc =
    | Awaiting
    | Stopping(packet: Packet)
    | Entering(packet: Packet)
    | Applying(packet: Packet)
    | MoveStopped
    | Exited

  datatype Script = Script(
    mode: int, main: MainPc, motion: Motion, traj: Trajectory,
    freedriveActive: bool, robotInFreedrive: bool, timedOut: bool, halted: bool)

  function Initial(actual: Joints): Script {
    Script(MODE_UNINITIALIZED, Awaiting,
           Motion(NoMove, map[Servo := actual, SpeedJ := AT_REST, SpeedL := AT_REST], false, [], []),
           Trajectory(NoTraj, 0, TRAJECTORY_RESULT_SUCCESS, 0.0, false, [], []),
           false, false, false, false)
  }

  /** Environment choices travel with the action: the packet, the pose the robot reports, the points a
      drain reads, whether halt() returns. */
  datatype Action =
    | Receive(packet: Packet)
    | ReceiveTimeout
    | StopOutgoing(drained: seq<Point>)
    | EnterMode(actual: Joints)
    | Apply(drained: seq<Point>, actual: Joints, haltReturns: bool)
    | StopMoveThread
    | StopTrajThread
    | MoveThreadStep
    | TrajThreadStep(read: ReadResult)

  function NewMode(p: Packet): int {
    p[REVERSE_DATA_SIZE]
  }

  function StopMode(s: Script, drained: seq<Point>): Script {
    if s.mode == MODE_TRAJECTORY then s.(traj := CancelTrajectory(s.traj, drained))
    else if s.mode == MODE_FREEDRIVE then
      if s.freedriveActive then s.(robotInFreedrive := false, freedriveActive := false) else s
    else s.(motion := s.motion.(thread := NoMove))
  }

  function EnterNewMode(s: Script, newMode: int, actual: Joints): Script {
    var e := s.(mode := newMode);
    if newMode == MODE_SPEEDL then e.(motion := EnterSession(s.motion, SpeedL, AT_REST))
    else if newMode == MODE_SPEEDJ then e.(motion := EnterSession(s.motion, SpeedJ, AT_REST))
    else if newMode == MODE_SERVOJ then e.(motion := EnterSession(s.motion, Servo, actual))
    else e
  }

  function ApplyServo(c: Config, s: Script, target: Joints, actual: Joints, haltReturns: bool): Script {
    if !s.motion.checkPending then s.(motion := AcceptTarget(s.motion, Servo, Unvetted(target)))
    else if WithinLimit(target, actual, c.startDeltaLimit) then
      s.(motion := AcceptTarget(s.motion.(checkPending := false), Servo, Vetted(target, actual)))
    else s.(halted := !haltReturns)
  }

  function ApplyMode(c: Config, s: Script, p: Packet, drained: seq<Point>, actual: Joints, haltReturns: bool): Script {
    if s.mode == MODE_SERVOJ then ApplyServo(c, s, Decode(p, 2, POS_ZOOM_RATIO), actual, haltReturns)
    else if s.mode == MODE_SPEEDL then
      s.(motion := AcceptTarget(s.motion, SpeedL, Unvetted(Decode(p, 2, POS_ZOOM_RATIO))))
    else if s.mode == MODE_SPEEDJ then
      s.(motion := AcceptTarget(s.motion, SpeedJ, Unvetted(Decode(p, 2, POS_ZOOM_RATIO))))
    else if s.mode == MODE_TRAJECTORY then
      if p[2] == TRAJECTORY_ACTION_START then s.(traj := StartTrajectory(s.traj, p[3], drained))
      else if p[2] == TRAJECTORY_ACTION_CANCEL then s.(traj := CancelTrajectory(s.traj, drained))
      else s
    else if s.mode == MODE_FREEDRIVE then
      if p[2] == FREEDRIVE_START then s.(robotInFreedrive := true, freedriveActive := true)
      else if p[2] == FREEDRIVE_END then s.(robotInFreedrive := false, freedriveActive := false)
      else s
    else s
  }

  function MoveStep(mode: int, m: Motion): Motion {
    match m.thread
    case NoMove => m
    case Move(k, AtLoop) =>
      m.(thread := Move(k, if mode == ModeOf(k) then Commanding(Setpoint(m, k), TargetsSoFar(m)) else Leaving))
    case Move(k, Commanding(arg, seen)) =>
      if m.sessions == [] then m
      else m.(thread := Move(k, AtLoop), commands := m.commands + [Command(k, arg, |m.sessions| - 1, seen)])
    case Move(_, Leaving) => m.(thread := NoMove)
  }

  /** One step of one thread. An action whose thread is elsewhere changes nothing, so every sequence of
      actions is a run. */
  function Step(c: Config, s: Script, a: Action): Script {
    if s.halted then s else
    match a
    case Receive(p) =>
      if s.main.Awaiting? && s.mode > MODE_STOPPED then
        s.(main := if s.mode != NewMode(p) then Stopping(p) else Applying(p))
      else s
    case ReceiveTimeout =>
      if s.main.Awaiting? && s.mode > MODE_STOPPED then s.(mode := MODE_STOPPED, timedOut := true) else s
    case StopOutgoing(drained) =>
      if s.main.Stopping? && CanDrain(s.traj, drained) then StopMode(s, drained).(main := Entering(s.main.packet)) else s
    case EnterMode(actual) =>
      if s.main.Entering? then EnterNewMode(s, NewMode(s.main.packet), actual).(main := Applying(s.main.packet)) else s
    case Apply(drained, actual, haltReturns) =>
      if s.main.Applying? && CanDrain(s.traj, drained) then
        ApplyMode(c, s, s.main.packet, drained, actual, haltReturns).(main := Awaiting)
      else s
    case StopMoveThread =>
      if s.main.Awaiting? && s.mode <= MODE_STOPPED then s.(main := MoveStopped, motion := s.motion.(thread := NoMove)) else s
    case StopTrajThread =>
      if s.main.MoveStopped? then s.(main := Exited, traj := StopTraj(s.traj)) else s
    case MoveThreadStep => s.(motion := MoveStep(s.mode, s.motion))
    case TrajThreadStep(read) => s.(traj := TrajStep(c, s.traj, read))
  }

  function Exec(c: Config, actual: Joints, run: seq<Action>): Script {
    if run == [] then Initial(actual) else Step(c, Exec(c, actual, run[..|run| - 1]), run[|run| - 1])
  }

  lemma Next(c: Config, actual: Joints, run: seq<Action>, a: Action) returns (longer: seq<Action>)
    ensures longer == run + [a] && Exec(c, actual, longer) == Step(c, Exec(c, actual, run), a)
  {
    longer := run + [a];
    assert longer[..|run|] == run;
  }
}
