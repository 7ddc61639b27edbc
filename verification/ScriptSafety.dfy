/** Which source moves the arm, and what setpoints it is given: properties of every run of the script. */
module ScriptSafety {
  import opened RobotJoints
  import opened ScriptState

  // ----- one motion source -----

  /** The one state in which a source may outlive its mode: the reverse socket fell silent, and the
      script is on its way out. */
  predicate StoppedByTimeout(s: Script) {
    s.timedOut && s.mode == MODE_STOPPED
  }

  predicate OneSource(s: Script) {
    && (s.motion.thread.Move? ==> s.mode == ModeOf(s.motion.thread.kind) || StoppedByTimeout(s))
    && (s.traj.thread.Traj? ==> s.mode == MODE_TRAJECTORY || StoppedByTimeout(s))
    && (s.robotInFreedrive ==> s.mode == MODE_FREEDRIVE || StoppedByTimeout(s))
    && !(s.motion.thread.Move? && s.traj.thread.Traj?)
    && !(s.robotInFreedrive && (s.motion.thread.Move? || s.traj.thread.Traj?))
  }

  predicate SourceInv(s: Script) {
    && OneSource(s)
    && s.robotInFreedrive == s.freedriveActive
    && (s.main.Entering? ==> s.motion.thread.NoMove? && s.traj.thread.NoTraj? && !s.robotInFreedrive)
    && (s.timedOut ==> s.mode == MODE_STOPPED && !s.main.Stopping? && !s.main.Entering? && !s.main.Applying?)
    && (s.main.MoveStopped? || s.main.Exited? ==> s.motion.thread.NoMove?)
    && (s.main.Exited? ==> s.traj.thread.NoTraj?)
    && (s.main.MoveStopped? || s.main.Exited? ==> s.mode <= MODE_STOPPED)
  }

  lemma SourceInvStep(c: Config, s: Script, a: Action)
    requires SourceInv(s)
    ensures SourceInv(Step(c, s, a))
  {
    hide Decode, WithinLimit, AcceptTarget, ClearPoints, MoveFor;
    match a
    case TrajThreadStep(read) => TrajStepThread(c, s.traj, read);
    case StopOutgoing(drained) => CancelStops(s.traj, drained);
    case Apply(drained, actual, halts) =>
      CancelStops(s.traj, drained);
      if s.main.Applying? && CanDrain(s.traj, drained) && !s.halted {
        ApplySources(c, s, s.main.packet, drained, actual, halts);
      }
    case _ =>
  }

  lemma TrajStepThread(c: Config, t: Trajectory, read: ReadResult)
    ensures TrajStep(c, t, read).thread.Traj? ==> t.thread.Traj?
  {
  }

  lemma CancelStops(t: Trajectory, drained: seq<Point>)
    ensures CancelTrajectory(t, drained).thread == NoTraj
  {
  }

  lemma ApplySources(c: Config, s: Script, p: Packet, drained: seq<Point>, actual: Joints, halts: bool)
    ensures var t := ApplyMode(c, s, p, drained, actual, halts);
            && t.mode == s.mode && t.timedOut == s.timedOut && t.motion.thread == s.motion.thread
            && (s.mode != MODE_TRAJECTORY ==> t.traj == s.traj)
            && (s.mode != MODE_FREEDRIVE ==> t.robotInFreedrive == s.robotInFreedrive && t.freedriveActive == s.freedriveActive)
            && (s.robotInFreedrive == s.freedriveActive ==> t.robotInFreedrive == t.freedriveActive)
  {
    hide Decode, WithinLimit, StartTrajectory, CancelTrajectory, AcceptTarget;
    AcceptKeepsThread(s.motion, Servo, Unvetted(Decode(p, 2, POS_ZOOM_RATIO)));
    AcceptKeepsThread(s.motion, SpeedJ, Unvetted(Decode(p, 2, POS_ZOOM_RATIO)));
    AcceptKeepsThread(s.motion, SpeedL, Unvetted(Decode(p, 2, POS_ZOOM_RATIO)));
    AcceptKeepsThread(s.motion.(checkPending := false), Servo, Vetted(Decode(p, 2, POS_ZOOM_RATIO), actual));
  }

  lemma AcceptKeepsThread(m: Motion, k: MoveKind, a: Accepted)
    ensures AcceptTarget(m, k, a).thread == m.thread
  {
  }

  /** One motion source, for every run: whatever packets arrive, unknown mode numbers included, the
      motion thread lives only in its own mode, the trajectory thread only in TRAJECTORY, freedrive is
      on only in FREEDRIVE, and never two of them at once. After the script has exited both threads
      are dead. */
  lemma {:induction false} OnlyOneMotionSource(c: Config, actual: Joints, run: seq<Action>)
    ensures var s := Exec(c, actual, run);
            SourceInv(s) && OneSource(s) && (s.main.Exited? ==> s.motion.thread.NoMove? && s.traj.thread.NoTraj?)
  {
    hide Step;
    if run != [] {
      OnlyOneMotionSource(c, actual, run[..|run| - 1]);
      SourceInvStep(c, Exec(c, actual, run[..|run| - 1]), run[|run| - 1]);
    }
  }

  /** A packet as the host sends it, for a mode and two of its words. */
  function PacketFor(mode: int, action: int, points: int): Packet {
    [1, 0, action, points, 0, 0, 0, 0, mode]
  }

  /** Nothing after a reverse-socket timeout touches freedrive. */
  lemma {:induction false} TimeoutKeepsFreedrive(c: Config, actual: Joints, run: seq<Action>, later: seq<Action>)
    requires Exec(c, actual, run).timedOut
    ensures var s, t := Exec(c, actual, run), Exec(c, actual, run + later);
            t.timedOut && t.robotInFreedrive == s.robotInFreedrive
    decreases |later|
  {
    if later == [] {
      assert run + later == run;
    } else {
      var n := |later| - 1;
      TimeoutKeepsFreedrive(c, actual, run, later[..n]);
      OnlyOneMotionSource(c, actual, run + later[..n]);
      assert (run + later)[..|run + later| - 1] == run + later[..n];
      hide TrajStep, MoveStep, StopTraj;
    }
  }

  /** Action i of a run is the timeout that ends the script. */
  predicate TimesOut(c: Config, actual: Joints, run: seq<Action>, i: nat)
    requires i < |run|
  {
    run[i] == ReceiveTimeout &&
    var s := Exec(c, actual, run[..i]);
    s.main.Awaiting? && s.mode > MODE_STOPPED && !s.halted
  }

  lemma {:induction false} FindTimeout(c: Config, actual: Joints, run: seq<Action>) returns (i: nat)
    requires Exec(c, actual, run).timedOut
    ensures i < |run| && TimesOut(c, actual, run, i)
  {
    var n := |run| - 1;
    if Exec(c, actual, run[..n]).timedOut {
      i := FindTimeout(c, actual, run[..n]);
      assert run[..n][..i] == run[..i];
    } else {
      i := n;
      hide TrajStep, MoveStep, StopTraj, CancelTrajectory, StartTrajectory, ApplyMode, ScriptState.EnterNewMode;
      if run[n].Apply? || run[n].EnterMode? {
        OthersKeepTimedOut(c, Exec(c, actual, run[..n]), run[n]);
      }
    }
  }

  lemma OthersKeepTimedOut(c: Config, s: Script, a: Action)
    requires a.Apply? || a.EnterMode?
    ensures Step(c, s, a).timedOut == s.timedOut
  {
    hide Decode, WithinLimit, StartTrajectory, CancelTrajectory, AcceptTarget;
  }

  lemma TimeoutAt(c: Config, actual: Joints, run: seq<Action>, i: nat)
    requires i < |run| && TimesOut(c, actual, run, i)
    ensures Exec(c, actual, run).robotInFreedrive == Exec(c, actual, run[..i]).robotInFreedrive
  {
    hide Exec;
    var timedOut := Next(c, actual, run[..i], ReceiveTimeout);
    TimeoutKeepsFreedrive(c, actual, timedOut, run[i + 1..]);
    assert timedOut + run[i + 1..] == run;
  }

  /** How the script leaves freedrive: on after its exit exactly if the exit was on a timeout of the reverse
      socket and freedrive was on when that happened. */
  lemma FreedriveAfterExit(c: Config, actual: Joints, run: seq<Action>)
    requires Exec(c, actual, run).main.Exited?
    ensures Exec(c, actual, run).robotInFreedrive
            <==> exists i :: 0 <= i < |run| && TimesOut(c, actual, run, i) && Exec(c, actual, run[..i]).robotInFreedrive
  {
    OnlyOneMotionSource(c, actual, run);
    hide Exec, TimesOut;
    if Exec(c, actual, run).robotInFreedrive {
      var i := FindTimeout(c, actual, run);
      TimeoutAt(c, actual, run, i);
    }
    forall i | 0 <= i < |run| && TimesOut(c, actual, run, i)
      ensures Exec(c, actual, run).robotInFreedrive == Exec(c, actual, run[..i]).robotInFreedrive
    {
      TimeoutAt(c, actual, run, i);
    }
  }

  /** And it does come to that. */
  lemma ExitsInFreedrive(c: Config, actual: Joints) returns (run: seq<Action>)
    ensures var s := Exec(c, actual, run); s.main.Exited? && s.robotInFreedrive
  {
    hide Decode, WithinLimit, TrajStep, StopTraj;
    run := Next(c, actual, [], Receive(PacketFor(MODE_FREEDRIVE, FREEDRIVE_START, 0)));
    run := Next(c, actual, run, StopOutgoing([]));
    run := Next(c, actual, run, EnterMode(actual));
    run := Next(c, actual, run, Apply([], actual, true));
    run := Next(c, actual, run, ReceiveTimeout);
    run := Next(c, actual, run, StopMoveThread);
    run := Next(c, actual, run, StopTrajThread);
  }

  // ----- setpoints -----

  /** The setpoint of a session once n of its targets have been stored. */
  function SetpointAfter(session: Session, n: nat): Joints
    requires n <= |session.accepted|
  {
    if n == 0 then session.entry else session.accepted[n - 1].target
  }

  /** arg is what the session's setpoint was after `seen` targets. */
  predicate Held(arg: Joints, seen: nat, session: Session) {
    seen <= |session.accepted| && arg == SetpointAfter(session, seen)
  }

  /** The first target of a servo session is the vetted one, close to where the arm was then; velocity
      sessions begin at rest. */
  predicate GoodSession(session: Session, limit: real) {
    && (session.kind == Servo && session.accepted != [] ==>
          session.accepted[0].Vetted? && WithinLimit(session.accepted[0].target, session.accepted[0].actual, limit))
    && (session.kind != Servo ==> session.entry == AT_REST)
  }

  ghost predicate GoodCommand(c: Command, sessions: seq<Session>) {
    c.session < |sessions| && sessions[c.session].kind == c.kind && Held(c.arg, c.seen, sessions[c.session])
  }

  ghost predicate CommandsGood(m: Motion) {
    forall i :: 0 <= i < |m.commands| ==> GoodCommand(m.commands[i], m.sessions)
  }

  predicate SessionsGood(m: Motion, limit: real) {
    forall i :: 0 <= i < |m.sessions| ==> GoodSession(m.sessions[i], limit)
  }

  /** No command was read before one issued earlier, nor after the thread's next one. */
  predicate ReadsInOrder(m: Motion) {
    && (forall i, j :: 0 <= i < j < |m.commands| ==> NotBefore(m.commands[i], m.commands[j]))
    && (forall i :: 0 <= i < |m.commands| ==> ReadByNow(m.commands[i], m))
  }

  predicate NotBefore(earlier: Command, later: Command) {
    earlier.session < later.session || (earlier.session == later.session && earlier.seen <= later.seen)
  }

  predicate ReadByNow(c: Command, m: Motion) {
    && c.session < |m.sessions|
    && (c.session == |m.sessions| - 1 ==>
          && c.seen <= TargetsSoFar(m)
          && (m.thread.Move? && m.thread.pc.Commanding? ==> c.seen <= m.thread.pc.seen))
  }

  /** The newest session is one of kind k and the stored setpoint is its latest. */
  ghost predicate InSession(m: Motion, k: MoveKind) {
    && m.sessions != [] && k in m.setpoint
    && var last := m.sessions[|m.sessions| - 1];
       last.kind == k && Held(m.setpoint[k], |last.accepted|, last)
  }

  ghost predicate ModeGood(mode: int, m: Motion) {
    && (forall k :: mode == ModeOf(k) ==> InSession(m, k))
    && (mode == MODE_SERVOJ ==> m.sessions != [] && (m.checkPending <==> m.sessions[|m.sessions| - 1].accepted == []))
  }

  ghost predicate ThreadGood(m: Motion) {
    m.thread.Move? ==>
      && InSession(m, m.thread.kind)
      && (m.thread.pc.Commanding? ==> Held(m.thread.pc.arg, m.thread.pc.seen, m.sessions[|m.sessions| - 1]))
  }

  ghost predicate MotionInv(mode: int, m: Motion, limit: real) {
    CommandsGood(m) && SessionsGood(m, limit) && ModeGood(mode, m) && ThreadGood(m) && ReadsInOrder(m)
  }

  lemma MoveStepGood(mode: int, m: Motion, limit: real)
    requires MotionInv(mode, m, limit)
    ensures MotionInv(mode, MoveStep(mode, m), limit)
  {
    hide GoodSession;
  }

  lemma EnterGood(oldMode: int, mode: int, m: Motion, k: MoveKind, entry: Joints, limit: real)
    requires MotionInv(oldMode, m, limit) && mode == ModeOf(k) && (k != Servo ==> entry == AT_REST)
    ensures MotionInv(mode, EnterSession(m, k, entry), limit)
  {
    hide WithinLimit;
    var e := EnterSession(m, k, entry);
    assert forall i :: 0 <= i < |m.sessions| ==> e.sessions[i] == m.sessions[i];
    assert CommandsGood(e) by {
      hide Held;
    }
  }

  lemma HeldStays(session: Session, a: Accepted)
    ensures var longer := session.(accepted := session.accepted + [a]);
            && Held(a.target, |longer.accepted|, longer)
            && forall arg, seen :: Held(arg, seen, session) ==> Held(arg, seen, longer)
  {
  }

  lemma AcceptGood(mode: int, m: Motion, k: MoveKind, a: Accepted, limit: real)
    requires MotionInv(mode, m, limit) && mode == ModeOf(k)
    requires k == Servo ==> if m.checkPending then a.Vetted? && WithinLimit(a.target, a.actual, limit) else true
    ensures MotionInv(mode, AcceptTarget(m.(checkPending := k != Servo && m.checkPending), k, a), limit)
  {
    var n := m.(checkPending := k != Servo && m.checkPending);
    var t := AcceptTarget(n, k, a);
    var top := |m.sessions| - 1;
    HeldStays(m.sessions[top], a);
    assert InSession(m, k);
    hide Held, WithinLimit;
    assert forall i :: 0 <= i < top ==> t.sessions[i] == m.sessions[i];
    assert forall i :: 0 <= i < |m.commands| ==> GoodCommand(m.commands[i], m.sessions);
  }

  lemma MotionInvStep(c: Config, s: Script, a: Action)
    requires MotionInv(s.mode, s.motion, c.startDeltaLimit) && SourceInv(s)
    ensures var t := Step(c, s, a); MotionInv(t.mode, t.motion, c.startDeltaLimit)
  {
    match a
    case MoveThreadStep =>
      MoveStepGood(s.mode, s.motion, c.startDeltaLimit);
    case EnterMode(actual) =>
      if s.main.Entering? {
        EnterModeGood(s, NewMode(s.main.packet), actual, c.startDeltaLimit);
      }
    case Apply(drained, actual, halts) =>
      if s.main.Applying? {
        ApplyGood(c, s, s.main.packet, drained, actual, halts);
      }
    case _ =>
      hide CommandsGood, SessionsGood, InSession, Held, ReadsInOrder, CancelTrajectory, TrajStep;
  }

  lemma EnterModeGood(s: Script, newMode: int, actual: Joints, limit: real)
    requires MotionInv(s.mode, s.motion, limit) && s.motion.thread.NoMove?
    ensures var t := EnterNewMode(s, newMode, actual); MotionInv(t.mode, t.motion, limit)
  {
    hide CommandsGood, SessionsGood, InSession, ReadsInOrder;
    if newMode == MODE_SPEEDL {
      EnterGood(s.mode, newMode, s.motion, SpeedL, AT_REST, limit);
    } else if newMode == MODE_SPEEDJ {
      EnterGood(s.mode, newMode, s.motion, SpeedJ, AT_REST, limit);
    } else if newMode == MODE_SERVOJ {
      EnterGood(s.mode, newMode, s.motion, Servo, actual, limit);
    }
  }

  lemma ApplyGood(c: Config, s: Script, p: Packet, drained: seq<Point>, actual: Joints, halts: bool)
    requires MotionInv(s.mode, s.motion, c.startDeltaLimit)
    ensures var t := ApplyMode(c, s, p, drained, actual, halts);
            MotionInv(t.mode, t.motion, c.startDeltaLimit) && t.mode == s.mode
  {
    hide CommandsGood, SessionsGood, InSession, ReadsInOrder, WithinLimit, Decode, StartTrajectory, CancelTrajectory;
    var target := Decode(p, 2, POS_ZOOM_RATIO);
    if s.mode == MODE_SERVOJ {
      if !s.motion.checkPending {
        AcceptGood(s.mode, s.motion, Servo, Unvetted(target), c.startDeltaLimit);
        assert s.motion.(checkPending := false) == s.motion;
      } else if WithinLimit(target, actual, c.startDeltaLimit) {
        AcceptGood(s.mode, s.motion, Servo, Vetted(target, actual), c.startDeltaLimit);
      }
    } else if s.mode == MODE_SPEEDL {
      AcceptGood(s.mode, s.motion, SpeedL, Unvetted(target), c.startDeltaLimit);
      assert s.motion.(checkPending := s.motion.checkPending) == s.motion;
    } else if s.mode == MODE_SPEEDJ {
      AcceptGood(s.mode, s.motion, SpeedJ, Unvetted(target), c.startDeltaLimit);
      assert s.motion.(checkPending := s.motion.checkPending) == s.motion;
    }
  }

  lemma {:induction false} MotionInvHolds(c: Config, actual: Joints, run: seq<Action>)
    ensures var s := Exec(c, actual, run); MotionInv(s.mode, s.motion, c.startDeltaLimit)
  {
    if run != [] {
      hide Step, MotionInv, SourceInv;
      MotionInvHolds(c, actual, run[..|run| - 1]);
      OnlyOneMotionSource(c, actual, run[..|run| - 1]);
      MotionInvStep(c, Exec(c, actual, run[..|run| - 1]), run[|run| - 1]);
    }
  }

  /** No stale setpoint, for every run. Command i was issued in a session of its own kind, and its argument
      is the setpoint as it was at the thread's read under the lock: the latest of the targets that had been
      accepted in that session, or what the session began with if there was none, which is the pose read on
      entering for servoj and zero for speedj and speedl. The first target a servo session accepts lies
      within the limit of the pose the arm had at that moment, on all six joints. */
  lemma NoStaleSetpoint(c: Config, actual: Joints, run: seq<Action>, i: nat)
    requires i < |Exec(c, actual, run).motion.commands|
    ensures var m := Exec(c, actual, run).motion;
            var cmd := m.commands[i];
            && cmd.session < |m.sessions|
            && var session := m.sessions[cmd.session];
               && session.kind == cmd.kind && cmd.seen <= |session.accepted|
               && cmd.arg == SetpointAfter(session, cmd.seen)
               && (cmd.kind != Servo ==> session.entry == AT_REST)
               && (cmd.kind == Servo && session.accepted != [] ==>
                     && session.accepted[0].Vetted?
                     && var first, was := session.accepted[0].target, session.accepted[0].actual;
                        forall j :: 0 <= j < 6 ==> was[j] - c.startDeltaLimit <= first[j] <= was[j] + c.startDeltaLimit)
  {
    MotionInvHolds(c, actual, run);
    hide Exec, SetpointAfter;
    var m := Exec(c, actual, run).motion;
    assert GoodCommand(m.commands[i], m.sessions);
    assert GoodSession(m.sessions[m.commands[i].session], c.startDeltaLimit);
  }

  /** Setpoints are taken up in the order they were stored: a later command never belongs to an earlier
      session, nor to an earlier state of the same one. */
  lemma SetpointsNeverGoBack(c: Config, actual: Joints, run: seq<Action>, i: nat, j: nat)
    requires i < j < |Exec(c, actual, run).motion.commands|
    ensures var commands := Exec(c, actual, run).motion.commands;
            || commands[i].session < commands[j].session
            || (commands[i].session == commands[j].session && commands[i].seen <= commands[j].seen)
  {
    MotionInvHolds(c, actual, run);
    hide Exec, CommandsGood, SessionsGood, ModeGood, ThreadGood;
    var commands := Exec(c, actual, run).motion.commands;
    assert NotBefore(commands[i], commands[j]);
  }

  /** What a read under the lock takes: the setpoint of the thread's own kind and every target stored so
      far. The command made of it is the thread's next step, and no other step issues one. */
  lemma CommandsAreCurrent(c: Config, s: Script, a: Action)
    ensures var t := Step(c, s, a);
            t.motion.commands != s.motion.commands ==>
              && a.MoveThreadStep? && s.motion.thread.Move? && s.motion.thread.pc.Commanding?
              && t.motion.commands == s.motion.commands
                   + [Command(s.motion.thread.kind, s.motion.thread.pc.arg, |s.motion.sessions| - 1, s.motion.thread.pc.seen)]
    ensures var t := Step(c, s, a);
            t.motion.thread.Move? && t.motion.thread.pc.Commanding? && t.motion.thread != s.motion.thread ==>
              && a.MoveThreadStep? && s.motion.thread == Move(t.motion.thread.kind, AtLoop)
              && s.mode == ModeOf(t.motion.thread.kind)
              && t.motion.thread.pc == Commanding(Setpoint(s.motion, t.motion.thread.kind), TargetsSoFar(s.motion))
  {
    hide CancelTrajectory, StartTrajectory, TrajStep, ApplyMode;
    if a.Apply? && s.main.Applying? {
      ApplyIssuesNothing(c, s, s.main.packet, a.drained, a.actual, a.haltReturns);
    }
  }

  lemma ApplyIssuesNothing(c: Config, s: Script, p: Packet, drained: seq<Point>, actual: Joints, halts: bool)
    ensures var t := ApplyMode(c, s, p, drained, actual, halts);
            t.motion.commands == s.motion.commands && t.motion.thread == s.motion.thread
  {
    hide Decode, WithinLimit, StartTrajectory, CancelTrajectory;
  }

  /** A servo target is refused exactly when the check is pending and some joint is beyond the limit. A
      refusal leaves the setpoint and the pending check as they were, even if halt() returns. */
  lemma RefusalChangesNothing(c: Config, s: Script, drained: seq<Point>, actual: Joints, haltReturns: bool)
    requires !s.halted && s.main.Applying? && s.mode == MODE_SERVOJ && CanDrain(s.traj, drained)
    requires s.motion.sessions != []
    ensures var t := Step(c, s, Apply(drained, actual, haltReturns));
            var target := Decode(s.main.packet, 2, POS_ZOOM_RATIO);
            var refused := s.motion.checkPending && !forall i :: 0 <= i < 6 ==>
                             actual[i] - c.startDeltaLimit <= target[i] <= actual[i] + c.startDeltaLimit;
            && (refused ==> t.motion == s.motion && t.halted == !haltReturns)
            && (!refused ==> t.motion.setpoint == s.motion.setpoint[Servo := target] && !t.motion.checkPending
                             && !t.halted)
  {
    hide Decode;
  }
}
