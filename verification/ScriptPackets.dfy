/** What each packet makes the script do, told from the words of the packet and the pose the robot reports:
    sessions, targets, trajectory commands and their results, freedrive. */
module ScriptPackets {
  import opened RobotJoints
  import opened ScriptState
  import opened ScriptSafety
  import opened ScriptTrajectory

  // ----- sessions -----

  /** A mode switch is only ever under way to another mode. */
  predicate SwitchInv(s: Script) {
    s.main.Stopping? || s.main.Entering? ==> s.mode != s.main.packet[8]
  }

  lemma SwitchInvStep(c: Config, s: Script, a: Action)
    requires SwitchInv(s)
    ensures SwitchInv(Step(c, s, a))
  {
    hide ApplyMode, CancelTrajectory, StopTraj, TrajStep, MoveStep, EnterSession;
  }

  lemma {:induction false} SwitchInvHolds(c: Config, actual: Joints, run: seq<Action>)
    ensures SwitchInv(Exec(c, actual, run))
  {
    if run != [] {
      hide Step, SwitchInv;
      SwitchInvHolds(c, actual, run[..|run| - 1]);
      SwitchInvStep(c, Exec(c, actual, run[..|run| - 1]), run[|run| - 1]);
    }
  }

  /** Entering a motion mode begins a session of it and starts its thread: a servo session at the pose the
      robot reports, with its check pending, a velocity session at rest. Entering another mode begins none. */
  lemma EnteringBegins(c: Config, s: Script, pose: Joints)
    requires !s.halted && s.main.Entering?
    ensures var m, t, mode := s.motion, Step(c, s, EnterMode(pose)), s.main.packet[8];
            && t.mode == mode && t.main == Applying(s.main.packet) && t.traj == s.traj
            && (mode == MODE_SERVOJ ==>
                  t.motion == Motion(Move(Servo, AtLoop), m.setpoint[Servo := pose], true,
                                     m.sessions + [Session(Servo, pose, [])], m.commands))
            && (mode == MODE_SPEEDJ ==>
                  t.motion == Motion(Move(SpeedJ, AtLoop), m.setpoint[SpeedJ := [0.0, 0.0, 0.0, 0.0, 0.0, 0.0]], m.checkPending,
                                     m.sessions + [Session(SpeedJ, [0.0, 0.0, 0.0, 0.0, 0.0, 0.0], [])], m.commands))
            && (mode == MODE_SPEEDL ==>
                  t.motion == Motion(Move(SpeedL, AtLoop), m.setpoint[SpeedL := [0.0, 0.0, 0.0, 0.0, 0.0, 0.0]], m.checkPending,
                                     m.sessions + [Session(SpeedL, [0.0, 0.0, 0.0, 0.0, 0.0, 0.0], [])], m.commands))
            && (mode != MODE_SERVOJ && mode != MODE_SPEEDJ && mode != MODE_SPEEDL ==> t.motion == m)
  {
  }

  /** Kind and entry of a session never change, and only entering a mode begins one. */
  lemma SessionsStay(c: Config, s: Script, a: Action, j: nat)
    requires j < |s.motion.sessions|
    ensures var u, t := s.motion.sessions, Step(c, s, a).motion.sessions;
            |t| >= |u| && t[j].kind == u[j].kind && t[j].entry == u[j].entry
  {
    hide ApplyMode, CancelTrajectory, StopTraj, TrajStep;
    if a.Apply? && s.main.Applying? {
      ApplyKeepsSessions(c, s, s.main.packet, a.drained, a.actual, a.haltReturns, j);
    }
  }

  lemma ApplyKeepsSessions(c: Config, s: Script, p: Packet, drained: seq<Point>, pose: Joints, halts: bool, j: nat)
    requires j < |s.motion.sessions|
    ensures var u, t := s.motion.sessions, ApplyMode(c, s, p, drained, pose, halts).motion.sessions;
            |t| == |u| && t[j].kind == u[j].kind && t[j].entry == u[j].entry
  {
    hide Decode, WithinLimit, CancelTrajectory, StartTrajectory;
  }

  lemma SessionsBegin(c: Config, s: Script, a: Action)
    ensures |Step(c, s, a).motion.sessions| == |s.motion.sessions|
            || (!s.halted && a.EnterMode? && s.main.Entering? && |Step(c, s, a).motion.sessions| == |s.motion.sessions| + 1)
  {
    hide ApplyMode, CancelTrajectory, StopTraj, TrajStep;
    if a.Apply? && s.main.Applying? {
      hide Decode, WithinLimit;
      ApplyBeginsNone(c, s, s.main.packet, a.drained, a.actual, a.haltReturns);
    }
  }

  lemma ApplyBeginsNone(c: Config, s: Script, p: Packet, drained: seq<Point>, pose: Joints, halts: bool)
    ensures |ApplyMode(c, s, p, drained, pose, halts).motion.sessions| == |s.motion.sessions|
  {
    hide Decode, WithinLimit, CancelTrajectory, StartTrajectory;
  }

  /** Action i of a run begins session j: the script enters, from another mode, the motion mode that the
      packet in its hands asks for. */
  predicate Begins(c: Config, actual: Joints, run: seq<Action>, i: nat, j: nat)
    requires i < |run|
  {
    && run[i].EnterMode?
    && var s := Exec(c, actual, run[..i]);
       !s.halted && s.main.Entering? && |s.motion.sessions| == j && s.mode != s.main.packet[8]
  }

  /** What a session that action i begins must be. */
  predicate FitsBeginning(session: Session, mode: int, pose: Joints) {
    match session.kind
    case Servo => mode == MODE_SERVOJ && session.entry == pose
    case SpeedJ => mode == MODE_SPEEDJ && session.entry == [0.0, 0.0, 0.0, 0.0, 0.0, 0.0]
    case SpeedL => mode == MODE_SPEEDL && session.entry == [0.0, 0.0, 0.0, 0.0, 0.0, 0.0]
  }

  /** Over every run each session was begun by entering its mode from another one, and began with the pose
      the robot reported in that very step if it is a servo session, at rest otherwise. */
  lemma {:induction false} SessionsBeginWhereTheArmIs(c: Config, actual: Joints, run: seq<Action>, j: nat) returns (i: nat)
    requires j < |Exec(c, actual, run).motion.sessions|
    ensures i < |run| && Begins(c, actual, run, i, j)
    ensures FitsBeginning(Exec(c, actual, run).motion.sessions[j], Exec(c, actual, run[..i]).main.packet[8], run[i].actual)
  {
    var n := |run| - 1;
    var s := Exec(c, actual, run[..n]);
    if j < |s.motion.sessions| {
      i := SessionsBeginWhereTheArmIs(c, actual, run[..n], j);
      assert run[..n][..i] == run[..i];
      hide Step;
      SessionsStay(c, s, run[n], j);
    } else {
      hide Step;
      i := n;
      SessionsBegin(c, s, run[n]);
      SwitchInvHolds(c, actual, run[..n]);
      EnteringBegins(c, s, run[n].actual);
    }
  }

  /** So a servoj issued before any target of its session was stored holds the arm where it was when the
      script entered SERVOJ. */
  lemma ServoHoldsFirst(c: Config, actual: Joints, run: seq<Action>, n: nat) returns (i: nat)
    requires n < |Exec(c, actual, run).motion.commands|
    requires var cmd := Exec(c, actual, run).motion.commands[n]; cmd.kind == Servo && cmd.seen == 0
    ensures var cmd := Exec(c, actual, run).motion.commands[n];
            i < |run| && Begins(c, actual, run, i, cmd.session) && cmd.arg == run[i].actual
  {
    NoStaleSetpoint(c, actual, run, n);
    hide Exec, WithinLimit, Begins;
    i := SessionsBeginWhereTheArmIs(c, actual, run, Exec(c, actual, run).motion.commands[n].session);
  }

  // ----- targets -----

  /** target holds the six words of p from its second on, in units of a millionth. */
  predicate Spells(target: Joints, p: Packet) {
    forall i :: 0 <= i < 6 ==> target[i] == p[2 + i] as real / 1000000.0
  }

  /** The newest session with one more target. */
  function WithTarget(sessions: seq<Session>, a: Accepted): seq<Session>
    requires sessions != []
  {
    var last := sessions[|sessions| - 1];
    sessions[|sessions| - 1 := last.(accepted := last.accepted + [a])]
  }

  /** Applying a packet in a velocity mode stores the velocity it spells, for that mode alone. */
  lemma VelocityPacket(c: Config, s: Script, drained: seq<Point>, pose: Joints, halts: bool, k: MoveKind)
    requires !s.halted && s.main.Applying? && CanDrain(s.traj, drained) && s.motion.sessions != []
    requires k != Servo && s.mode == ModeOf(k)
    ensures var m, t := s.motion, Step(c, s, Apply(drained, pose, halts));
            && k in t.motion.setpoint && Spells(t.motion.setpoint[k], s.main.packet)
            && t == s.(main := Awaiting,
                       motion := m.(setpoint := m.setpoint[k := t.motion.setpoint[k]],
                                    sessions := WithTarget(m.sessions, Unvetted(t.motion.setpoint[k]))))
  {
    hide WithinLimit;
  }

  /** Applying a packet in SERVOJ. With the check pending, the target it spells is refused exactly if some
      joint is farther than the limit from the pose the robot reports; then nothing is stored. */
  lemma ServoPacket(c: Config, s: Script, drained: seq<Point>, pose: Joints, halts: bool)
    requires !s.halted && s.main.Applying? && CanDrain(s.traj, drained) && s.motion.sessions != []
    requires s.mode == MODE_SERVOJ
    ensures var m, p, t := s.motion, s.main.packet, Step(c, s, Apply(drained, pose, halts));
            var refused := m.checkPending && !forall i :: 0 <= i < 6 ==>
                             pose[i] - c.startDeltaLimit <= p[2 + i] as real / 1000000.0 <= pose[i] + c.startDeltaLimit;
            if refused then t == s.(main := Awaiting, halted := !halts)
            else
              && Servo in t.motion.setpoint && Spells(t.motion.setpoint[Servo], p)
              && var target := t.motion.setpoint[Servo];
                 t == s.(main := Awaiting,
                         motion := m.(setpoint := m.setpoint[Servo := target], checkPending := false,
                                      sessions := WithTarget(m.sessions, if m.checkPending then Vetted(target, pose)
                                                                         else Unvetted(target))))
  {
    var p := s.main.packet;
    var target := Decode(p, 2, POS_ZOOM_RATIO);
    assert forall i :: 0 <= i < 6 ==> target[i] == p[2 + i] as real / 1000000.0;
    assert Spells(target, p);
    hide Decode;
  }

  /** Nothing else stores a target, and no other setpoint is touched but that of a mode being entered. */
  lemma OthersStoreNothing(c: Config, s: Script, a: Action)
    requires !(a.Apply? && s.main.Applying?)
    ensures var m, n := s.motion, Step(c, s, a).motion;
            && m.sessions <= n.sessions
            && (!(a.EnterMode? && s.main.Entering?) ==> n.sessions == m.sessions && n.setpoint == m.setpoint)
  {
    hide CancelTrajectory, StopTraj, TrajStep;
  }

  /** A motion thread whose mode is over comes to its end by itself in three of its steps at most, and the
      only command it can still issue is the one it holds. */
  lemma MotionThreadEnds(c: Config, s: Script)
    requires !s.halted && s.motion.thread.Move? && s.motion.sessions != [] && s.mode != ModeOf(s.motion.thread.kind)
    ensures var m, t := s.motion, Step(c, Step(c, Step(c, s, MoveThreadStep), MoveThreadStep), MoveThreadStep);
            var held := if m.thread.pc.Commanding?
                        then [Command(m.thread.kind, m.thread.pc.arg, |m.sessions| - 1, m.thread.pc.seen)] else [];
            t == s.(motion := m.(thread := NoMove, commands := m.commands + held))
  {
  }

  // ----- trajectory commands -----

  /** START opens a trajectory of the count in the packet's third word, with its thread about to begin and
      no result yet. The one before is only marked as replaced, if it was active: it gets no result. */
  lemma StartPacket(c: Config, s: Script, drained: seq<Point>, pose: Joints, halts: bool)
    requires !s.halted && s.main.Applying? && CanDrain(s.traj, drained)
    requires s.mode == MODE_TRAJECTORY && s.main.packet[2] == TRAJECTORY_ACTION_START
    ensures var u, t := s.traj, Step(c, s, Apply(drained, pose, halts)).traj;
            && |t.starts| == |u.starts| + 1 && t.active && t.pointsLeft == s.main.packet[3]
            && t.thread == Traj(|u.starts|, Beginning) && t.consumed == u.consumed + drained
            && t.starts[|u.starts|] == Start(s.main.packet[3], |t.consumed|, 0, 0, [], [], false, false)
            && (forall k :: 0 <= k < |u.starts| ==> t.starts[k].results == u.starts[k].results)
            && (u.starts != [] && u.active ==> t.starts[|u.starts| - 1].replaced)
  {
    hide Decode, WithinLimit;
  }

  /** What cancelling must leave of a trajectory: the thread stopped, nothing counted, and one result more,
      CANCELED, for the latest START exactly if it was active. */
  predicate Cancelled(t: Trajectory, u: Trajectory, drained: seq<Point>) {
    && u.thread == NoTraj && !u.active && u.pointsLeft <= 0 && u.consumed == t.consumed + drained
    && |u.starts| == |t.starts|
    && forall k :: 0 <= k < |t.starts| ==>
         u.starts[k].results == t.starts[k].results
                                + if k == |t.starts| - 1 && t.active then [TRAJECTORY_RESULT_CANCELED] else []
  }

  lemma CancelMeans(t: Trajectory, drained: seq<Point>)
    requires CanDrain(t, drained)
    ensures Cancelled(t, CancelTrajectory(t, drained), drained)
  {
  }

  lemma CancelPacket(c: Config, s: Script, drained: seq<Point>, pose: Joints, halts: bool)
    requires !s.halted && s.main.Applying? && CanDrain(s.traj, drained)
    requires s.mode == MODE_TRAJECTORY && s.main.packet[2] == TRAJECTORY_ACTION_CANCEL
    ensures Cancelled(s.traj, Step(c, s, Apply(drained, pose, halts)).traj, drained)
  {
    hide Decode, WithinLimit, CancelTrajectory, Cancelled;
    CancelMeans(s.traj, drained);
  }

  lemma LeavingTrajectory(c: Config, s: Script, drained: seq<Point>)
    requires !s.halted && s.main.Stopping? && CanDrain(s.traj, drained) && s.mode == MODE_TRAJECTORY
    ensures Cancelled(s.traj, Step(c, s, StopOutgoing(drained)).traj, drained)
  {
    hide CancelTrajectory, Cancelled;
    CancelMeans(s.traj, drained);
  }

  /** Over every run: an active trajectory that is cancelled, by a packet or by leaving the mode, ends up with
      CANCELED as its one result. */
  lemma CancelledActive(c: Config, actual: Joints, run: seq<Action>, a: Action)
    requires var s := Exec(c, actual, run);
             && !s.halted && s.traj.active && s.mode == MODE_TRAJECTORY
             && ((a.StopOutgoing? && s.main.Stopping? && CanDrain(s.traj, a.drained))
                 || (a.Apply? && s.main.Applying? && CanDrain(s.traj, a.drained)
                     && s.main.packet[2] == TRAJECTORY_ACTION_CANCEL))
    ensures var s, t := Exec(c, actual, run), Step(c, Exec(c, actual, run), a);
            && s.traj.starts != [] && |t.traj.starts| == |s.traj.starts|
            && t.traj.starts[|s.traj.starts| - 1].results == [TRAJECTORY_RESULT_CANCELED]
            && !t.traj.active && t.traj.thread.NoTraj?
  {
    ActiveInvHolds(c, actual, run);
    hide Exec;
    var s := Exec(c, actual, run);
    assert Last(s.traj).results == [];
    hide Step;
    if a.Apply? {
      CancelPacket(c, s, a.drained, a.actual, a.haltReturns);
    } else {
      LeavingTrajectory(c, s, a.drained);
    }
  }

  // ----- results -----

  /** What a result means, whoever sends it, over every run. The trajectory thread sends SUCCESS, with every
      point read and dealt with, or FAILURE, with some point never read; applying a packet or leaving a mode
      sends CANCELED; nothing else sends anything. */
  lemma ResultsMean(c: Config, actual: Joints, run: seq<Action>, a: Action, k: nat)
    requires var s := Exec(c, actual, run);
             && k < |s.traj.starts| && k < |Step(c, s, a).traj.starts|
             && Step(c, s, a).traj.starts[k].results != s.traj.starts[k].results
    ensures var x, y := Exec(c, actual, run).traj.starts[k], Step(c, Exec(c, actual, run), a).traj.starts[k];
            && (a.TrajThreadStep? || a.Apply? || a.StopOutgoing?)
            && (a.TrajThreadStep? ==>
                  || (y.results == [TRAJECTORY_RESULT_SUCCESS] && y.handled == y.taken == AtLeastZero(y.n))
                  || (y.results == [TRAJECTORY_RESULT_FAILURE] && y.taken < AtLeastZero(y.n)))
            && (!a.TrajThreadStep? ==> y.results == [TRAJECTORY_RESULT_CANCELED])
  {
    ResultsAreForTheLatest(c, actual, run, a, k);
    LedgerInvHolds(c, actual, run);
    ActiveInvHolds(c, actual, run);
    var s := Exec(c, actual, run);
    hide Exec, StartGood, StartsGood;
    match a
    case TrajThreadStep(read) => SentByThread(c, s.traj, read, k);
    case _ =>
      hide ResultInv, TrajStep;
      OtherResults(c, s, a, k);
  }

  lemma SentByThread(c: Config, t: Trajectory, read: ReadResult, k: nat)
    requires LedgerInv(t) && k < |t.starts| && t.starts[k].results == []
    requires var u := TrajStep(c, t, read); k < |u.starts| && u.starts[k].results != []
    ensures var y := TrajStep(c, t, read).starts[k];
            || (y.results == [TRAJECTORY_RESULT_SUCCESS] && y.handled == y.taken == AtLeastZero(y.n))
            || (y.results == [TRAJECTORY_RESULT_FAILURE] && y.taken < AtLeastZero(y.n))
  {
    hide MovesOf, MoveFor, StartsGood;
  }

  lemma OtherResults(c: Config, s: Script, a: Action, k: nat)
    requires !a.TrajThreadStep? && k < |s.traj.starts| && s.traj.starts[k].results == [] && ActiveInv(s)
    requires k < |Step(c, s, a).traj.starts| && Step(c, s, a).traj.starts[k].results != []
    ensures a.Apply? || a.StopOutgoing?
    ensures Step(c, s, a).traj.starts[k].results == [TRAJECTORY_RESULT_CANCELED]
  {
    hide Decode, WithinLimit, TrajStep, MoveStep, AcceptTarget, CancelTrajectory, StartTrajectory, StopTraj, ResultInv;
    match a
    case StopOutgoing(drained) =>
      if CanDrain(s.traj, drained) {
        CancelMeans(s.traj, drained);
      }
    case Apply(drained, _, _) =>
      if s.main.Applying? && CanDrain(s.traj, drained) {
        CancelMeans(s.traj, drained);
        CommandsTouchLast(s.traj, drained, s.main.packet[3], k);
      }
    case StopTrajThread => StopTouchesNothing(s.traj, k);
    case _ =>
  }

  // ----- moves -----

  /** Motion types 0 and 1 are moved to, a point of any other is skipped. */
  predicate Movable(p: Point) {
    p[21] == 0 || p[21] == 1
  }

  function MovableIn(points: seq<Point>): nat {
    if points == [] then 0
    else MovableIn(points[..|points| - 1]) + if Movable(points[|points| - 1]) then 1 else 0
  }

  /** What the move for point j of a trajectory of n is, word by word. */
  predicate IsMoveTo(m: MoveCmd, p: Point, j: nat, n: int) {
    && m.motionType == p[21]
    && (forall i :: 0 <= i < 6 ==> m.target[i] == p[1 + i] as real / 1000000.0)
    && m.time == p[19] as real / 1000.0
    && m.blend == if j == n - 1 then 0.0 else p[20] as real / 1000000.0
  }

  lemma OneMove(p: Point, j: nat, n: int)
    requires j < n
    ensures var moves := MoveFor(p, BlendOf(p, j, n));
            if Movable(p) then |moves| == 1 && IsMoveTo(moves[0], p, j, n) else moves == []
  {
  }

  lemma {:induction false} MovesSpelled(points: seq<Point>, n: int, j: nat)
    requires j < |points| <= n
    ensures |MovesOf(points, n)| == MovableIn(points) && MovableIn(points[..j]) <= MovableIn(points)
    ensures Movable(points[j]) ==>
              && MovableIn(points[..j]) < MovableIn(points)
              && IsMoveTo(MovesOf(points, n)[MovableIn(points[..j])], points[j], j, n)
    decreases |points|
  {
    hide MoveFor, IsMoveTo, Movable, BlendOf;
    var top := |points| - 1;
    OneMove(points[top], top, n);
    if j < top {
      MovesSpelled(points[..top], n, j);
      assert points[..top][..j] == points[..j];
    } else if top > 0 {
      MovesSpelled(points[..top], n, 0);
    }
  }

  /** There is one move for each movable point, and the one for point j says what that point says. */
  predicate SpelledAt(moves: seq<MoveCmd>, points: seq<Point>, j: nat, n: int)
    requires j < |points|
  {
    && |moves| == MovableIn(points)
    && (Movable(points[j]) ==>
          MovableIn(points[..j]) < |moves| && IsMoveTo(moves[MovableIn(points[..j])], points[j], j, n))
  }

  lemma MovesAt(x: Start, consumed: seq<Point>, j: nat)
    requires StartGood(x, consumed) && j < x.handled
    ensures SpelledAt(x.moves, consumed[x.offset..x.offset + x.handled], j, x.n)
  {
    hide MovesOf, MovableIn, IsMoveTo, Movable;
    MovesSpelled(consumed[x.offset..x.offset + x.handled], x.n, j);
  }

  /** Over every run, the moves made for a START are one for each movable point its thread has dealt with, in
      order, each word for word that point's: type, joints, time, and its blend radius but on the last of n. */
  lemma MovesAreTheirPoints(c: Config, actual: Joints, run: seq<Action>, k: nat, j: nat)
    requires k < |Exec(c, actual, run).traj.starts| && j < Exec(c, actual, run).traj.starts[k].handled
    ensures var t := Exec(c, actual, run).traj;
            var x := t.starts[k];
            && StartGood(x, t.consumed)
            && SpelledAt(x.moves, t.consumed[x.offset..x.offset + x.handled], j, x.n)
  {
    LedgerInvHolds(c, actual, run);
    hide Exec, MovesOf, SpelledAt;
    var t := Exec(c, actual, run).traj;
    MovesAt(t.starts[k], t.consumed, j);
  }

  // ----- freedrive -----

  /** Freedrive and the script's own flag for it, after a packet applied in FREEDRIVE: START is 1, END -1. */
  lemma FreedrivePacket(c: Config, s: Script, drained: seq<Point>, pose: Joints, halts: bool)
    requires !s.halted && s.main.Applying? && CanDrain(s.traj, drained) && s.mode == MODE_FREEDRIVE
    ensures var action, t := s.main.packet[2], Step(c, s, Apply(drained, pose, halts));
            t == s.(main := Awaiting,
                    robotInFreedrive := action == 1 || (s.robotInFreedrive && action != -1),
                    freedriveActive := action == 1 || (s.freedriveActive && action != -1))
  {
    hide Decode;
  }

  /** No other step turns it on, and leaving the mode turns it off. */
  lemma FreedriveElsewhere(c: Config, s: Script, a: Action)
    requires !(a.Apply? && s.main.Applying? && s.mode == MODE_FREEDRIVE)
    ensures Step(c, s, a).robotInFreedrive ==> s.robotInFreedrive
    ensures (a.StopOutgoing? && s.main.Stopping? && CanDrain(s.traj, a.drained) && s.mode == MODE_FREEDRIVE
             && s.freedriveActive && !s.halted) ==> !Step(c, s, a).robotInFreedrive
  {
    hide CancelTrajectory, StartTrajectory, StopTraj, TrajStep, MoveStep, AcceptTarget, Decode, WithinLimit;
  }
}
