/** The trajectory protocol of the script: which results are sent, and which points are read and moved
    to, over every run. */
module ScriptTrajectory {
  import opened RobotJoints
  import opened ScriptState
  import opened ScriptSafety

  // ----- results -----

  /** Why START k has no result: its thread still runs, or the START was replaced while active, or its
      thread was stopped between clearing trajectory_active and sending, or the script has exited with the
      trajectory still active. */
  predicate Excused(t: Trajectory, k: nat, exited: bool)
    requires k < |t.starts|
  {
    || t.starts[k].replaced
    || t.starts[k].cut
    || (k == |t.starts| - 1 && t.thread.Traj?)
    || (k == |t.starts| - 1 && t.active && exited)
  }

  predicate ResultInv(t: Trajectory, exited: bool) {
    && (t.thread.Traj? ==> t.thread.id + 1 == |t.starts| && Last(t).results == [] && (t.active <==> !t.thread.pc.Sending?))
    && (t.active ==> t.starts != [] && Last(t).results == [] && (t.thread.Traj? || exited))
    && (t.starts != [] ==> !Last(t).replaced && (t.thread.Traj? || t.active ==> !Last(t).cut))
    && (forall k :: 0 <= k < |t.starts| ==> |t.starts[k].results| <= 1)
    && (forall k :: 0 <= k < |t.starts| ==> (t.starts[k].results == [] <==> Excused(t, k, exited)))
  }

  lemma TrajStepResults(c: Config, t: Trajectory, read: ReadResult, exited: bool)
    requires ResultInv(t, exited)
    ensures ResultInv(TrajStep(c, t, read), exited)
  {
    hide Decode, MoveFor;
  }

  lemma CancelResults(t: Trajectory, drained: seq<Point>)
    requires ResultInv(t, false)
    ensures ResultInv(CancelTrajectory(t, drained), false) && !CancelTrajectory(t, drained).active
  {
  }

  lemma StartResults(t: Trajectory, n: int, drained: seq<Point>)
    requires ResultInv(t, false)
    ensures ResultInv(StartTrajectory(t, n, drained), false)
  {
    var d := ClearPoints(StopTraj(t), drained);
    var u := StartTrajectory(t, n, drained);
    assert forall k :: 0 <= k < |t.starts| - 1 ==> u.starts[k] == t.starts[k];
  }

  lemma StopResults(t: Trajectory)
    requires ResultInv(t, false)
    ensures ResultInv(StopTraj(t), true)
  {
  }

  /** An active trajectory is one of the current TRAJECTORY mode, or was overtaken by a timeout. */
  predicate ActiveInv(s: Script) {
    && ResultInv(s.traj, s.main.Exited?)
    && (s.traj.active ==> s.mode == MODE_TRAJECTORY || s.timedOut)
    && (s.main.Entering? ==> !s.traj.active)
  }

  lemma ActiveInvStep(c: Config, s: Script, a: Action)
    requires ActiveInv(s) && SourceInv(s)
    ensures ActiveInv(Step(c, s, a))
  {
    hide ResultInv, TrajStep, CancelTrajectory, StartTrajectory, StopTraj, Decode, WithinLimit, AcceptTarget, MoveStep;
    match a
    case TrajThreadStep(read) =>
      TrajStepResults(c, s.traj, read, s.main.Exited?);
      TrajStepActive(c, s.traj, read);
    case StopOutgoing(drained) =>
      if s.main.Stopping? {
        CancelResults(s.traj, drained);
      }
    case Apply(drained, actual, halts) =>
      if s.main.Applying? {
        CancelResults(s.traj, drained);
        StartResults(s.traj, s.main.packet[3], drained);
      }
    case StopTrajThread =>
      if s.main.MoveStopped? {
        StopResults(s.traj);
        StopKeepsActive(s.traj);
      }
    case _ =>
  }

  lemma TrajStepActive(c: Config, t: Trajectory, read: ReadResult)
    ensures TrajStep(c, t, read).active ==> t.active
  {
  }

  lemma StopKeepsActive(t: Trajectory)
    ensures StopTraj(t).active == t.active
  {
  }

  lemma {:induction false} ActiveInvHolds(c: Config, actual: Joints, run: seq<Action>)
    ensures ActiveInv(Exec(c, actual, run))
  {
    if run != [] {
      hide Step, ActiveInv, SourceInv;
      ActiveInvHolds(c, actual, run[..|run| - 1]);
      OnlyOneMotionSource(c, actual, run[..|run| - 1]);
      ActiveInvStep(c, Exec(c, actual, run[..|run| - 1]), run[|run| - 1]);
    }
  }

  /** Trajectory results, over every interleaving: no START ever gets two, and one has none exactly if it is
      still running, or was replaced by a new START while active, or lost its thread between clearing
      trajectory_active and sending, or was active when the script exited on a reverse-socket timeout. */
  lemma {:induction false} AtMostOneResult(c: Config, actual: Joints, run: seq<Action>, k: nat)
    requires k < |Exec(c, actual, run).traj.starts|
    ensures var s := Exec(c, actual, run);
            var start := s.traj.starts[k];
            && |start.results| <= 1
            && (start.results == [] <==>
                  || start.replaced || start.cut
                  || (k == |s.traj.starts| - 1 && s.traj.thread.Traj?)
                  || (k == |s.traj.starts| - 1 && s.traj.active && s.main.Exited? && s.timedOut))
  {
    ActiveInvHolds(c, actual, run);
    OnlyOneMotionSource(c, actual, run);
    hide Exec;
  }

  /** What the exit costs: shutting the trajectory thread down leaves the latest START without a result
      exactly if its thread was still alive then, or the result had been lost before. A trajectory that was
      active at the timeout but finished before the shutdown has its result. */
  lemma ExitLosesResultExactly(c: Config, actual: Joints, run: seq<Action>)
    requires var s := Exec(c, actual, run); s.main.MoveStopped? && !s.halted && s.traj.starts != []
    ensures var s, t := Exec(c, actual, run), Step(c, Exec(c, actual, run), StopTrajThread);
            && t.main.Exited? && |t.traj.starts| == |s.traj.starts|
            && (Last(t.traj).results == [] <==> s.traj.thread.Traj? || Last(s.traj).cut)
  {
    ActiveInvHolds(c, actual, run);
    hide Exec;
  }

  /** After that nothing happens any more. */
  lemma ExitIsFinal(c: Config, actual: Joints, run: seq<Action>, a: Action)
    requires Exec(c, actual, run).main.Exited?
    ensures Step(c, Exec(c, actual, run), a) == Exec(c, actual, run)
  {
    OnlyOneMotionSource(c, actual, run);
    hide Exec;
  }

  /** A trajectory of no points, its thread about to send the result. */
  lemma ThreadAtSending(c: Config, actual: Joints) returns (run: seq<Action>)
    ensures var s := Exec(c, actual, run);
            && s.main.Awaiting? && s.mode == MODE_TRAJECTORY && !s.halted && !s.timedOut
            && |s.traj.starts| == 1 && s.traj.starts[0].results == [] && s.traj.thread == Traj(0, Sending)
            && !s.traj.active && s.traj.pointsLeft == 0
  {
    hide Decode, WithinLimit, MoveFor;
    run := StartedEmpty(c, actual);
    run := Next(c, actual, run, TrajThreadStep(Nothing));
    run := Next(c, actual, run, TrajThreadStep(Nothing));
    run := Next(c, actual, run, TrajThreadStep(Nothing));
  }

  lemma StartedEmpty(c: Config, actual: Joints) returns (run: seq<Action>)
    ensures var s := Exec(c, actual, run);
            && s.main.Awaiting? && s.mode == MODE_TRAJECTORY && !s.halted && !s.timedOut
            && |s.traj.starts| == 1 && s.traj.starts[0].results == [] && s.traj.thread == Traj(0, Beginning)
            && s.traj.active && s.traj.pointsLeft == 0
  {
    hide Decode, WithinLimit, MoveFor, TrajStep;
    run := Next(c, actual, [], Receive(PacketFor(MODE_TRAJECTORY, TRAJECTORY_ACTION_START, 0)));
    run := Next(c, actual, run, StopOutgoing([]));
    run := Next(c, actual, run, EnterMode(actual));
    run := Next(c, actual, run, Apply([], actual, true));
  }

  /** A cancel between the two statements does lose the result for good: the thread is gone, and nothing
      is reported as canceled either. */
  lemma CancelCutsResult(c: Config, actual: Joints) returns (run: seq<Action>)
    ensures var s := Exec(c, actual, run);
            && |s.traj.starts| == 1 && s.traj.starts[0].results == [] && s.traj.starts[0].cut
            && s.traj.thread.NoTraj? && !s.traj.active && !s.timedOut
  {
    hide Exec, Decode, WithinLimit, MoveFor, TrajStep;
    run := ThreadAtSending(c, actual);
    run := Next(c, actual, run, Receive(PacketFor(MODE_TRAJECTORY, TRAJECTORY_ACTION_CANCEL, 0)));
    run := Next(c, actual, run, Apply([], actual, true));
  }

  /** Two exits on a timeout with the trajectory active at the timeout: one loses the result, the other,
      with the thread getting to its end first, does not. */
  lemma ExitMayLoseResult(c: Config, actual: Joints) returns (lost: seq<Action>, sent: seq<Action>)
    ensures var s := Exec(c, actual, lost);
            s.main.Exited? && s.timedOut && |s.traj.starts| == 1 && s.traj.starts[0].results == [] && s.traj.active
    ensures var s := Exec(c, actual, sent);
            s.main.Exited? && s.timedOut && |s.traj.starts| == 1 && s.traj.starts[0].results == [TRAJECTORY_RESULT_SUCCESS]
  {
    hide Exec, MoveFor;
    var started := StartedEmpty(c, actual);
    var timedOut := Next(c, actual, started, ReceiveTimeout);
    lost := Next(c, actual, timedOut, StopMoveThread);
    lost := Next(c, actual, lost, StopTrajThread);
    sent := Next(c, actual, timedOut, TrajThreadStep(Nothing));
    sent := Next(c, actual, sent, TrajThreadStep(Nothing));
    sent := Next(c, actual, sent, TrajThreadStep(Nothing));
    sent := Next(c, actual, sent, TrajThreadStep(Nothing));
    sent := Next(c, actual, sent, StopMoveThread);
    sent := Next(c, actual, sent, StopTrajThread);
  }

  /** Every result sent is one for the latest START, the only one the host can still be waiting for. */
  lemma {:induction false} ResultsAreForTheLatest(c: Config, actual: Joints, run: seq<Action>, a: Action, k: nat)
    requires var s := Exec(c, actual, run);
             k < |s.traj.starts| && k < |Step(c, s, a).traj.starts|
             && Step(c, s, a).traj.starts[k].results != s.traj.starts[k].results
    ensures var s := Exec(c, actual, run); k == |s.traj.starts| - 1 && s.traj.starts[k].results == []
  {
    ActiveInvHolds(c, actual, run);
    var s := Exec(c, actual, run);
    hide Exec, Decode, WithinLimit, AcceptTarget, MoveStep, CancelTrajectory, StartTrajectory, TrajStep, StopTraj;
    match a
    case TrajThreadStep(read) => TrajStepTouchesLast(c, s.traj, read, k);
    case StopOutgoing(drained) => CommandsTouchLast(s.traj, drained, 0, k);
    case Apply(drained, pose, halts) =>
      if s.main.Applying? {
        CommandsTouchLast(s.traj, drained, s.main.packet[3], k);
      }
    case StopTrajThread => StopTouchesNothing(s.traj, k);
    case _ =>
  }

  lemma TrajStepTouchesLast(c: Config, t: Trajectory, read: ReadResult, k: nat)
    requires k < |t.starts| && (ResultInv(t, false) || ResultInv(t, true))
    ensures var u := TrajStep(c, t, read);
            k < |u.starts| && u.starts[k].results != t.starts[k].results ==> k == |t.starts| - 1 && t.starts[k].results == []
  {
    hide MoveFor;
  }

  lemma CommandsTouchLast(t: Trajectory, drained: seq<Point>, n: int, k: nat)
    requires k < |t.starts| && (ResultInv(t, false) || ResultInv(t, true))
    ensures var u := CancelTrajectory(t, drained);
            k < |u.starts| && (u.starts[k].results != t.starts[k].results ==> k == |t.starts| - 1 && t.starts[k].results == [])
    ensures var u := StartTrajectory(t, n, drained);
            k < |u.starts| && u.starts[k].results == t.starts[k].results
  {
  }

  lemma StopTouchesNothing(t: Trajectory, k: nat)
    requires k < |t.starts|
    ensures k < |StopTraj(t).starts| && StopTraj(t).starts[k].results == t.starts[k].results
  {
  }

  // ----- points -----

  function AtLeastZero(n: int): nat {
    if n > 0 then n else 0
  }

  /** The blend radius of point j of a trajectory of n: none on the last. */
  function BlendOf(p: Point, j: nat, n: int): real {
    if j + 1 >= n then 0.0 else p[20] as real / POS_ZOOM_RATIO
  }

  /** The moves a trajectory of n makes for its points, in order, unsupported types skipped. */
  function MovesOf(points: seq<Point>, n: int): seq<MoveCmd> {
    if points == [] then [] else
    var j := |points| - 1;
    MovesOf(points[..j], n) + MoveFor(points[j], BlendOf(points[j], j, n))
  }

  /** What is read for a START never exceeds its count, what its thread has dealt with was read, and
      the moves are those of exactly these points. */
  predicate StartGood(x: Start, consumed: seq<Point>) {
    && x.taken <= AtLeastZero(x.n)
    && x.handled <= x.taken && x.offset + x.handled <= |consumed|
    && x.moves == MovesOf(consumed[x.offset..x.offset + x.handled], x.n)
    && (TRAJECTORY_RESULT_SUCCESS in x.results ==> x.handled == x.taken == AtLeastZero(x.n))
  }

  /** Points are read back to back: each START begins where the one before it left off. */
  predicate Offsets(t: Trajectory) {
    && (t.starts == [] ==> t.consumed == [] && t.pointsLeft <= 0 && t.thread.NoTraj?)
    && (t.starts != [] ==> t.starts[0].offset == 0 && |t.consumed| == Last(t).offset + Last(t).taken)
    && forall k :: 0 < k < |t.starts| ==> t.starts[k].offset == t.starts[k - 1].offset + t.starts[k - 1].taken
  }

  /** The script's own count agrees with the ledger of the latest START. */
  predicate CountGood(t: Trajectory) {
    t.starts != [] ==>
      var x := Last(t);
      if x.n > 0 then t.pointsLeft >= 0 && x.taken + t.pointsLeft <= x.n else t.pointsLeft <= 0
  }

  predicate ThreadLedger(t: Trajectory) {
    t.thread.Traj? && t.starts != [] ==>
      var x := Last(t);
      match t.thread.pc
      case Beginning => x.taken == x.handled == 0 && (x.n > 0 ==> t.pointsLeft == x.n)
      case Looping =>
        && x.handled == x.taken && (x.n > 0 ==> x.taken + t.pointsLeft == x.n)
        && (t.result == TRAJECTORY_RESULT_FAILURE ==> x.taken < AtLeastZero(x.n))
      case Moving(p, blend) =>
        && x.taken == x.handled + 1 && x.n > 0 && x.taken + t.pointsLeft == x.n && t.result == TRAJECTORY_RESULT_SUCCESS
        && t.consumed != [] && p == t.consumed[|t.consumed| - 1] && blend == BlendOf(p, x.handled, x.n)
      case Failing => t.result == TRAJECTORY_RESULT_FAILURE && x.taken < AtLeastZero(x.n)
      case Clearing =>
        && (t.result == TRAJECTORY_RESULT_SUCCESS ==> x.handled == x.taken == AtLeastZero(x.n))
        && (t.result == TRAJECTORY_RESULT_FAILURE ==> x.taken < AtLeastZero(x.n))
      case Sending =>
        && (t.result == TRAJECTORY_RESULT_SUCCESS ==> x.handled == x.taken == AtLeastZero(x.n))
        && (t.result == TRAJECTORY_RESULT_FAILURE ==> x.taken < AtLeastZero(x.n))
  }

  ghost predicate LedgerInv(t: Trajectory) {
    && Offsets(t) && CountGood(t) && ThreadLedger(t)
    && (t.thread.Traj? ==> t.thread.id + 1 == |t.starts|)
    && (t.thread.Traj? && !t.thread.pc.Beginning? ==>
          t.result == TRAJECTORY_RESULT_SUCCESS || t.result == TRAJECTORY_RESULT_FAILURE)
    && StartsGood(t)
  }

  ghost predicate StartsGood(t: Trajectory) {
    forall k :: 0 <= k < |t.starts| ==> StartGood(t.starts[k], t.consumed)
  }

  /** Reading on does not disturb what is recorded of a START. */
  lemma StartStays(x: Start, consumed: seq<Point>, more: seq<Point>)
    requires StartGood(x, consumed)
    ensures StartGood(x, consumed + more)
  {
    hide MovesOf;
    assert (consumed + more)[x.offset..x.offset + x.handled] == consumed[x.offset..x.offset + x.handled];
  }

  lemma MovesAppend(points: seq<Point>, p: Point, n: int)
    ensures MovesOf(points + [p], n) == MovesOf(points, n) + MoveFor(p, BlendOf(p, |points|, n))
  {
    hide MoveFor, BlendOf;
    assert (points + [p])[..|points|] == points;
  }

  /** Handling the point that was read last. */
  lemma HandleGood(x: Start, consumed: seq<Point>, p: Point)
    requires StartGood(x, consumed) && x.handled < x.taken && |consumed| == x.offset + x.taken
    requires x.taken == x.handled + 1 && p == consumed[|consumed| - 1] && x.results == []
    ensures StartGood(x.(handled := x.handled + 1, moves := x.moves + MoveFor(p, BlendOf(p, x.handled, x.n))), consumed)
  {
    hide MovesOf, MoveFor, BlendOf;
    var before := consumed[x.offset..x.offset + x.handled];
    MovesAppend(before, p, x.n);
    assert consumed[x.offset..x.offset + x.handled + 1] == before + [p];
  }

  /** Sending results and setting flags leaves the ledger of a START as it is. */
  lemma SameLedger(x: Start, y: Start, consumed: seq<Point>)
    requires StartGood(x, consumed)
    requires y.n == x.n && y.offset == x.offset && y.taken == x.taken && y.handled == x.handled && y.moves == x.moves
    requires TRAJECTORY_RESULT_SUCCESS in y.results ==>
               TRAJECTORY_RESULT_SUCCESS in x.results || x.handled == x.taken == AtLeastZero(x.n)
    ensures StartGood(y, consumed)
  {
    hide MovesOf;
  }

  lemma TrajStepLedger(c: Config, t: Trajectory, read: ReadResult)
    requires LedgerInv(t) && (ResultInv(t, false) || ResultInv(t, true))
    ensures LedgerInv(TrajStep(c, t, read))
  {
    if t.thread.Traj? {
      assert Last(t).results == [];
      hide LedgerInv, ResultInv, TrajStep;
      match t.thread.pc
      case Moving(_, _) => MovingLedger(c, t, read);
      case Looping => LoopingLedger(c, t, read);
      case Sending => SendLedger(c, t, read);
      case _ => QuietLedger(c, t, read);
    }
  }

  lemma SameStarts(t: Trajectory, u: Trajectory)
    requires StartsGood(t) && u.starts == t.starts && u.consumed == t.consumed
    ensures StartsGood(u)
  {
    hide StartGood;
  }

  /** Touching only the latest START. */
  lemma LastReplaced(t: Trajectory, u: Trajectory)
    requires StartsGood(t) && t.starts != [] && u.consumed == t.consumed && |u.starts| == |t.starts|
    requires u.starts == t.starts[|t.starts| - 1 := Last(u)]
    requires var x, y := Last(t), Last(u);
             && y.n == x.n && y.offset == x.offset && y.taken == x.taken && y.handled == x.handled && y.moves == x.moves
             && (TRAJECTORY_RESULT_SUCCESS in y.results ==>
                   TRAJECTORY_RESULT_SUCCESS in x.results || x.handled == x.taken == AtLeastZero(x.n))
    ensures StartsGood(u)
  {
    hide StartGood;
    SameLedger(Last(t), Last(u), t.consumed);
  }

  lemma QuietLedger(c: Config, t: Trajectory, read: ReadResult)
    requires LedgerInv(t) && t.thread.Traj?
    requires t.thread.pc.Beginning? || t.thread.pc.Failing? || t.thread.pc.Clearing?
    ensures LedgerInv(TrajStep(c, t, read))
  {
    hide MovesOf, MoveFor, StartGood, StartsGood;
    SameStarts(t, TrajStep(c, t, read));
  }

  lemma MovingLedger(c: Config, t: Trajectory, read: ReadResult)
    requires LedgerInv(t) && t.thread.Traj? && t.thread.pc.Moving? && Last(t).results == []
    ensures LedgerInv(TrajStep(c, t, read))
  {
    hide MovesOf, MoveFor, BlendOf;
    assert StartGood(Last(t), t.consumed);
    HandleGood(Last(t), t.consumed, t.thread.pc.point);
    hide StartGood;
  }

  lemma LoopingLedger(c: Config, t: Trajectory, read: ReadResult)
    requires LedgerInv(t) && t.thread.Traj? && t.thread.pc.Looping? && Last(t).results == []
    ensures LedgerInv(TrajStep(c, t, read))
  {
    hide MovesOf, MoveFor, StartGood;
    if t.pointsLeft > 0 && t.result == TRAJECTORY_RESULT_SUCCESS {
      if read.Got? {
        ReadStarts(c, t, read.point);
      }
    } else if t.pointsLeft <= 0 {
      LeaveLoop(t);
    }
  }

  lemma LeaveLoop(t: Trajectory)
    requires LedgerInv(t) && t.thread.Traj? && t.thread.pc.Looping? && t.pointsLeft <= 0
    ensures Last(t).handled == Last(t).taken == AtLeastZero(Last(t).n)
  {
    hide MovesOf;
    assert StartGood(Last(t), t.consumed);
  }

  lemma SendLedger(c: Config, t: Trajectory, read: ReadResult)
    requires LedgerInv(t) && t.thread.Traj? && t.thread.pc.Sending? && Last(t).results == []
    ensures LedgerInv(TrajStep(c, t, read))
  {
    hide MovesOf, StartGood, StartsGood;
    assert Last(t).results + [t.result] == [t.result];
    LastReplaced(t, TrajStep(c, t, read));
  }

  lemma ReadStarts(c: Config, t: Trajectory, p: Point)
    requires LedgerInv(t) && t.thread.Traj? && t.thread.pc.Looping?
    requires t.pointsLeft > 0 && t.result == TRAJECTORY_RESULT_SUCCESS && Last(t).results == []
    ensures StartsGood(TrajStep(c, t, Got(p))) && Last(t).n > 0
  {
    hide MovesOf, MoveFor;
    var u := TrajStep(c, t, Got(p));
    forall k | 0 <= k < |t.starts| ensures StartGood(u.starts[k], u.consumed) {
      StartStays(t.starts[k], t.consumed, [p]);
    }
  }

  lemma StopLedger(t: Trajectory)
    requires LedgerInv(t)
    ensures LedgerInv(StopTraj(t))
  {
    hide MovesOf, StartGood, StartsGood;
    if t.starts != [] {
      LastReplaced(t, StopTraj(t));
    } else {
      SameStarts(t, StopTraj(t));
    }
  }

  lemma ClearLedger(t: Trajectory, drained: seq<Point>)
    requires LedgerInv(t) && CanDrain(t, drained) && t.thread.NoTraj?
    ensures LedgerInv(ClearPoints(t, drained))
  {
    hide MovesOf;
    var u := ClearPoints(t, drained);
    if t.starts != [] {
      var x := Last(t);
      assert StartGood(x, t.consumed);
      StartStays(x, t.consumed, drained);
      assert StartGood(x.(taken := x.taken + |drained|), t.consumed + drained);
    }
    hide StartGood;
    forall k | 0 <= k < |t.starts| ensures StartGood(u.starts[k], u.consumed) {
      StartStays(t.starts[k], t.consumed, drained);
    }
  }

  lemma CancelLedger(t: Trajectory, drained: seq<Point>)
    requires LedgerInv(t) && CanDrain(t, drained)
    ensures LedgerInv(CancelTrajectory(t, drained))
  {
    StopLedger(t);
    assert StopTraj(t).thread.NoTraj? && CanDrain(StopTraj(t), drained);
    ClearLedger(StopTraj(t), drained);
    assert ClearPoints(StopTraj(t), drained).thread.NoTraj?;
    hide StopTraj, ClearPoints, LedgerInv, ReportCanceled;
    ReportLedger(ClearPoints(StopTraj(t), drained));
  }

  lemma ReportLedger(d: Trajectory)
    requires LedgerInv(d) && d.thread.NoTraj?
    ensures LedgerInv(ReportCanceled(d))
  {
    hide MovesOf, StartGood, StartsGood;
    if d.starts != [] {
      LastReplaced(d, ReportCanceled(d));
    } else {
      SameStarts(d, ReportCanceled(d));
    }
  }

  lemma StartLedger(t: Trajectory, n: int, drained: seq<Point>)
    requires LedgerInv(t) && CanDrain(t, drained)
    ensures LedgerInv(StartTrajectory(t, n, drained))
  {
    StopLedger(t);
    ClearLedger(StopTraj(t), drained);
    hide StopTraj, ClearPoints, LedgerInv, OpenStart;
    OpenLedger(ClearPoints(StopTraj(t), drained), n);
  }

  lemma OpenLedger(d: Trajectory, n: int)
    requires LedgerInv(d)
    ensures LedgerInv(OpenStart(d, n))
  {
    EmptyMoves(n);
    hide MovesOf;
    var added := Start(n, |d.consumed|, 0, 0, [], [], false, false);
    assert d.consumed[|d.consumed|..|d.consumed|] == [];
    assert StartGood(added, d.consumed);
    if d.starts != [] {
      var x := Last(d);
      assert StartGood(x, d.consumed);
      SameLedger(x, x.(replaced := x.replaced || d.active), d.consumed);
    }
    hide StartGood;
  }

  lemma EmptyMoves(n: int)
    ensures MovesOf([], n) == []
  {
  }

  lemma LedgerInvStep(c: Config, s: Script, a: Action)
    requires LedgerInv(s.traj) && ActiveInv(s)
    ensures LedgerInv(Step(c, s, a).traj)
  {
    hide LedgerInv, ResultInv, TrajStep, CancelTrajectory, StartTrajectory, StopTraj, Decode, WithinLimit, AcceptTarget, MoveStep;
    match a
    case TrajThreadStep(read) => TrajStepLedger(c, s.traj, read);
    case StopOutgoing(drained) =>
      if CanDrain(s.traj, drained) {
        CancelLedger(s.traj, drained);
      }
    case Apply(drained, actual, halts) =>
      if s.main.Applying? && CanDrain(s.traj, drained) {
        CancelLedger(s.traj, drained);
        StartLedger(s.traj, s.main.packet[3], drained);
      }
    case StopTrajThread => StopLedger(s.traj);
    case _ =>
  }

  lemma {:induction false} LedgerInvHolds(c: Config, actual: Joints, run: seq<Action>)
    ensures LedgerInv(Exec(c, actual, run).traj)
  {
    if run != [] {
      hide Step, LedgerInv, ActiveInv;
      LedgerInvHolds(c, actual, run[..|run| - 1]);
      ActiveInvHolds(c, actual, run[..|run| - 1]);
      LedgerInvStep(c, Exec(c, actual, run[..|run| - 1]), run[|run| - 1]);
    }
  }

  /** The point ledger, for every run. Between a START of n and the next one, thread and drains together
      read at most n points (none if n <= 0), whatever timeouts, cancels and mode switches come in
      between. The moves made are those of the points read right after the START, in order, with no
      blend on the n-th. SUCCESS is only sent when all n were read and dealt with. */
  lemma {:induction false} PointLedger(c: Config, actual: Joints, run: seq<Action>, k: nat)
    requires k < |Exec(c, actual, run).traj.starts|
    ensures var t := Exec(c, actual, run).traj;
            var x := t.starts[k];
            && x.handled <= x.taken <= AtLeastZero(x.n)
            && x.offset + x.handled <= |t.consumed|
            && x.offset == (if k == 0 then 0 else t.starts[k - 1].offset + t.starts[k - 1].taken)
            && x.moves == MovesOf(t.consumed[x.offset..x.offset + x.handled], x.n)
            && (TRAJECTORY_RESULT_SUCCESS in x.results ==> x.handled == AtLeastZero(x.n))
  {
    LedgerInvHolds(c, actual, run);
    hide Exec, MovesOf;
    var t := Exec(c, actual, run).traj;
    assert StartGood(t.starts[k], t.consumed);
  }

  /** Whenever no trajectory thread is between its START and the end of its loop, nothing is left. */
  predicate NothingLeft(s: Script) {
    && (s.traj.thread.NoTraj? && !s.main.Exited? ==> s.traj.pointsLeft <= 0)
    && (s.traj.thread.Traj? && (s.traj.thread.pc.Clearing? || s.traj.thread.pc.Sending?) ==> s.traj.pointsLeft <= 0)
  }

  lemma NothingLeftStep(c: Config, s: Script, a: Action)
    requires NothingLeft(s) && LedgerInv(s.traj) && SourceInv(s)
    ensures NothingLeft(Step(c, s, a))
  {
    hide StartGood, StartsGood, MoveFor, Decode, WithinLimit, AcceptTarget, MoveStep, CancelTrajectory, StartTrajectory;
    match a
    case StopOutgoing(drained) => CommandsLeave(s.traj, drained, 0);
    case Apply(drained, actual, halts) =>
      if s.main.Applying? {
        CommandsLeave(s.traj, drained, s.main.packet[3]);
      }
    case _ =>
  }

  lemma CommandsLeave(t: Trajectory, drained: seq<Point>, n: int)
    ensures var u := CancelTrajectory(t, drained); u.thread.NoTraj? && u.pointsLeft <= 0
    ensures var u := StartTrajectory(t, n, drained); u.thread.Traj? && u.thread.pc.Beginning?
  {
  }

  /** A trajectory that has sent its result, success or failure alike, leaves nothing behind: the next
      START has no points to drain. */
  lemma {:induction false} FinishedLeavesNothing(c: Config, actual: Joints, run: seq<Action>)
    ensures NothingLeft(Exec(c, actual, run))
    ensures var s := Exec(c, actual, run);
            s.traj.thread.NoTraj? && !s.main.Exited? ==> forall drained :: CanDrain(s.traj, drained) ==> drained == []
  {
    if run != [] {
      hide Step, LedgerInv, SourceInv;
      FinishedLeavesNothing(c, actual, run[..|run| - 1]);
      LedgerInvHolds(c, actual, run[..|run| - 1]);
      OnlyOneMotionSource(c, actual, run[..|run| - 1]);
      NothingLeftStep(c, Exec(c, actual, run[..|run| - 1]), run[|run| - 1]);
    }
  }

  /** What the host sends, one list per START, is one FIFO stream. */
  function Stream(host: seq<seq<Point>>): seq<Point> {
    if host == [] then [] else Stream(host[..|host| - 1]) + host[|host| - 1]
  }

  lemma {:induction false} StreamSplits(host: seq<seq<Point>>, k: nat)
    requires k < |host|
    ensures Stream(host[..k]) + host[k] <= Stream(host)
    decreases |host|
  {
    var front := host[..|host| - 1];
    if k < |front| {
      StreamSplits(front, k);
      assert front[..k] == host[..k];
    }
  }

  lemma {:induction false} OffsetIsStreamLength(t: Trajectory, host: seq<seq<Point>>, k: nat)
    requires Offsets(t) && k < |t.starts| <= |host|
    requires forall j :: 0 <= j < k ==> t.starts[j].taken == |host[j]|
    ensures t.starts[k].offset == |Stream(host[..k])|
  {
    if k > 0 {
      OffsetIsStreamLength(t, host, k - 1);
      assert host[..k][..k - 1] == host[..k - 1];
    }
  }

  /** If the host sends every START exactly the points it announced, and every earlier START's points
      were all read, then the moves made for START k are exactly those of an in-order prefix of its own
      points. */
  lemma {:induction false} MovesAreItsOwn(c: Config, actual: Joints, run: seq<Action>, host: seq<seq<Point>>, k: nat)
    requires var t := Exec(c, actual, run).traj;
             && k < |t.starts| <= |host| && t.consumed <= Stream(host)
             && (forall j :: 0 <= j < |t.starts| ==> |host[j]| == AtLeastZero(t.starts[j].n))
             && (forall j :: 0 <= j < k ==> t.starts[j].taken == |host[j]|)
    ensures var x := Exec(c, actual, run).traj.starts[k];
            x.handled <= |host[k]| && x.moves == MovesOf(host[k][..x.handled], x.n)
  {
    LedgerInvHolds(c, actual, run);
    hide Exec, MovesOf, Stream;
    var t := Exec(c, actual, run).traj;
    var x := t.starts[k];
    assert StartGood(x, t.consumed);
    OffsetIsStreamLength(t, host, k);
    StreamSplits(host, k);
    assert t.consumed[x.offset..x.offset + x.handled] == Stream(host)[x.offset..x.offset + x.handled]
        == (Stream(host[..k]) + host[k])[x.offset..x.offset + x.handled] == host[k][..x.handled];
  }
}
