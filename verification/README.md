# Verification model of the Elite CS robot driver

A Dafny model of the parts of this repository whose correctness depends on arithmetic over whole runs, on the
order in which threads interleave, or on a rewriting that has to keep its meaning. `dafny verify dfyconfig.toml`
checks everything.

Each protocol is a state machine: a `Step` function that takes one action of one thread, and `Exec`, which runs any
list of actions from the start (an action whose thread is elsewhere changes nothing, so every list is a run). Whatever
comes from outside, such as packets, frames, clock readings and the outcome of an SDK call, travels with the action.
Theorems are about `Exec` of every list. Where the source is an object whose methods assign fields, there is a class
as well, and its methods are proved to carry out those steps.

| file | what it models |
|---|---|
| `Timebase.dfy`, `ControlLoop.dfy` | the grid arithmetic of `rt_timebase` and the control loop that sleeps on the grid |
| `PeriodStats.dfy`, `StatsProtocol.dfy`, `Reporting.dfy` | the published statistics: one `record()`, the seqlock and window handshake as interleaved loads and stores, and `summarize()` |
| `ScriptState.dfy`, `ScriptSafety.dfy`, `ScriptTrajectory.dfy`, `ScriptPackets.dfy`, `ExternalControl.dfy` | the robot-side script: its threads as interleaved steps, what moves the arm, the trajectory protocol, what each packet does word for word, and the script's functions in their own form |
| `HardwareState.dfy`, `HardwareLink.dfy`, `HardwareOutage.dfy`, `HardwareCommands.dfy`, `HardwareAttempt.dfy`, `HardwareInterface.dfy` | the hardware interface's realtime and async thread: reconnection, outage episodes, command reset, whole attempts and sequences of calls, and the object itself |
| `ModeSwitch.dfy`, `ModeKeys.dfy` | preparing and performing controller mode switches, and what a request does as told from the interface keys in it |
| `Matrix.dfy`, `Calibration.dfy` | the DH chain, its regrouping, and forward kinematics |
| `ScaledClock.dfy` | the scaled trajectory clock |
| `Arithmetic.dfy`, `RobotJoints.dfy`, `Wrappers.dfy` | C++ integer division, joint values, optional values |

## Where the code does not do what is expected of it

Each of these is a theorem about the code as it is, with its exact condition and, but for the sequence recheck, an
instance.

- `control_node.cpp` (lines 202-203) and `rt_timebase.hpp` (lines 183-187) say that the cycles a report counts and the
  ones its extremes cover differ by at most the one `record()` in flight. They differ by the records that complete
  between the previous report's `snapshot()` and its `request_window_reset()`, plus one in flight there that had loaded
  the request word. `StatsProtocol.GapIsExact` proves that number and that "at most one" is met exactly if it is at most
  one; `StatsProtocol.GapCanBeAnyLength` gives a run for every length.
- The comment on `updateAsyncIO()` (`hardware_interface.cpp` lines 1251-1256) says that no path uses the session while
  it may be null. `HardwareLink.HastyReconnectUsesNull` gives a run that does. It needs a read that succeeds between the
  decision to reconnect and the raising of `rtsi_reconnecting_`, a failed attempt, and no read since:
  `HardwareLink.NullSessionInIO` shows that this is exactly when, `HardwareLink.ReadInsideKeepsIOSafe` that one read
  inside every `reconnectAll()` excludes it.
- `reconnectAll()` promises that `false` comes with a null session and a cleared flag (lines 629-630).
  `HardwareInterface.Interface.ReconnectAll` ensures, given `false`, that the flag is clear and that the session is null
  exactly if some call of the rebuilding failed: if the context is gone when the control channel is checked, `false`
  comes with a whole session. An exception that is not an `EliteException` leaves the flag raised, exactly if it
  escapes the rebuilding. `HardwareAttempt.BrokenPromises` has an attempt of each kind; `HardwareLink.SessionIsNullOrWhole` holds all the same.
- A resend that finds the robot's task still playing can be followed by a motion command before the reset it asked for,
  if the next frame is lost. `HardwareCommands.NoMotionBeforeReset` and `HardwareCommands.ExposedRequestCanBeOvertaken`
  together give the exact condition on the request, `HardwareCommands.ExposedRequestHappens` a run that meets it;
  `HardwareCommands.UnresetMotionExactly` says which `write()` does it.
- The sequence recheck of `snapshot()` alone cannot tell 2^31 records from none. `StatsProtocol.RecheckIsExact` says
  what it can tell, with no assumption; the atomicity theorem assumes fewer per attempt.
- `external_control.script` (line 131) promises exactly one result per trajectory. None gets two;
  `ScriptTrajectory.AtMostOneResult` says exactly which get none. `ScriptTrajectory.CancelCutsResult` is a run that loses
  one to a cancel between the two statements, as lines 132-133 of the script admit, and
  `ScriptTrajectory.ExitMayLoseResult` one that loses it to the exit on a reverse-socket timeout, beside one that does
  not: `ScriptTrajectory.ExitLosesResultExactly` shows that the exit loses it exactly if the thread was still alive when
  it was shut down.
- The script can exit with freedrive on. `ScriptSafety.ExitsInFreedrive` is such a run, and by
  `ScriptSafety.FreedriveAfterExit` it happens exactly if the exit was on a reverse-socket timeout and freedrive was on
  then.

## Model

| member | source | states |
|---|---|---|
| Timebase.AddNs | eli_cs_robot_driver/src/rt_timebase.cpp:21-33 | adds exactly ns, of either sign, and always returns a normalised timespec |
| Timebase.FromNs | eli_cs_robot_driver/include/eli_cs_robot_driver/rt_timebase.hpp:81-86 | inverse of the conversion to nanoseconds; normalised for non-negative counts |
| Timebase.NormalisedIsUnique | eli_cs_robot_driver/include/eli_cs_robot_driver/rt_timebase.hpp:78-86 | normalised timespecs and nanosecond counts correspond one to one, so the integer statements below are statements about timespecs |
| Timebase.ResyncToGrid | eli_cs_robot_driver/src/rt_timebase.cpp:48-57 | returns the one grid point between half a period and one and a half after now; now itself without a period |
| Timebase.ClassifyMeans | eli_cs_robot_driver/src/rt_timebase.cpp:35-46 | on time, late or an overrun exactly as the wake-up is not after the deadline, less than a period after it, or more; the lateness is the plain difference |
| Timebase.ClampMeasuredPeriod | eli_cs_robot_driver/src/rt_timebase.cpp:71-84 | the point of [0, 10 periods] closest to the measurement, flagged exactly when it differs from it |
| Timebase.AdvanceOnGrid | eli_cs_robot_driver/src/rt_timebase.cpp:59-69 | the next deadline is normalised, on the grid, past the wake-up and at least a period on; a lateness L below a period drops nothing, an overrun drops floor(L/P) slots or one more, by how much of a period is left |
| ControlLoop.Run | eli_cs_robot_driver/src/control_node.cpp:295-333 | the loop computes the deadlines and samples of the run that the theorems below are about |
| ControlLoop.SampleMeans | eli_cs_robot_driver/src/control_node.cpp:322-332 | what cycle k of a run records, told from its wake-ups: the gap between wake k and the one before, the lateness against its own deadline, an overrun exactly from a full period on, clamped exactly outside [0, 10 periods] |
| ControlLoop.FirstDeadline | eli_cs_robot_driver/src/control_node.cpp:293-296 | the first deadline is the first grid point at least half a period after the start |
| ControlLoop.DeadlinesOnGrid | eli_cs_robot_driver/src/control_node.cpp:295-314 | every deadline of every run is a normalised multiple of the period |
| ControlLoop.GridConservation | eli_cs_robot_driver/src/control_node.cpp:308-314 | over every run the deadline moves by one period per cycle plus one per slot lost, as told from the recorded lateness |
| ControlLoop.NoBurst | eli_cs_robot_driver/src/control_node.cpp:298-314 | with wake-ups at most e early, j - i cycles always take more than j - i - 1 periods less e, whatever stalls came before |
| ControlLoop.PeriodsTelescope | eli_cs_robot_driver/src/control_node.cpp:322-333 | the recorded periods of any stretch of a run add up to the time between the two wake-ups at its ends |
| PeriodStats.NsToUsRounded | eli_cs_robot_driver/src/rt_timebase.cpp:131-134 | within half a microsecond of its argument, of the same sign |
| PeriodStats.FoldCounters | eli_cs_robot_driver/src/rt_timebase.cpp:169-183 | after any log of records the counters are its length and sums, modulo 2^64 where the source wraps |
| PeriodStats.FoldExtremes | eli_cs_robot_driver/src/rt_timebase.cpp:147-167 | the extremes are exactly those of the records that saw the newest request the last one saw, and window names that request |
| PeriodStats.Recorder.Record | eli_cs_robot_driver/src/rt_timebase.cpp:138-186 | the method, store by store, performs the Recorded step the folds are made of, leaves the sequence word even, two further on modulo 2^32, and reports the window last requested |
| PeriodStats.Recorder.UpdateExtremes | eli_cs_robot_driver/src/rt_timebase.cpp:147-167 | a pending request restarts the extremes from this sample, otherwise they are widened by it; the counters stay |
| PeriodStats.Recorder.UpdateCounters | eli_cs_robot_driver/src/rt_timebase.cpp:169-183 | the counters take this sample in, wrapping where unsigned; the extremes stay |
| PeriodStats.Recorder.RequestWindowReset | eli_cs_robot_driver/src/rt_timebase.cpp:215-217 | the next window number, modulo 2^32, becomes the requested one and is returned; Recorder.Record ensures that every record from then on reports the requested window |
| StatsProtocol.SnapshotsAreAtomic | eli_cs_robot_driver/src/rt_timebase.cpp:138-213 | in every interleaving of single loads and stores a returned snapshot is the fold of one whole prefix of the records, no shorter than at the call's start and no longer than now, and snapshots never go back |
| StatsProtocol.AttemptsStartOver | eli_cs_robot_driver/src/rt_timebase.cpp:193-212 | an attempt begins only on an even sequence word, ends with the copy exactly if the word has not moved, and otherwise starts over, empty-handed |
| StatsProtocol.RecheckIsExact | eli_cs_robot_driver/src/rt_timebase.cpp:194-210 | without any assumption, the final comparison passes exactly when no record is in flight and a multiple of 2^31 have completed since the attempt began |
| StatsProtocol.WindowHandshake | eli_cs_robot_driver/src/control_node.cpp:199-208 | each report counts exactly the records between its snapshot and the previous one; it is non-stale exactly when nothing was requested or a record it folds saw the latest request; its extremes then cover exactly the records that saw it, which are those from the previous report's request on, less the one in flight there if it had loaded the request word |
| StatsProtocol.GapIsExact | eli_cs_robot_driver/src/control_node.cpp:199-208 | a report's window lies within its counted set, and leaves uncovered exactly as many records as completed between the previous snapshot and its request, plus one in flight there that had loaded the request word; so it is at most one exactly if those are |
| StatsProtocol.ReportOfRun | eli_cs_robot_driver/src/rt_timebase.cpp:222-246 | a report of a run counts its own records exactly, whatever the 64-bit sums did before, and when its window is the counted stretch its mean is between the rounded extremes |
| StatsProtocol.MomentsOfRun | eli_cs_robot_driver/src/rt_timebase.cpp:235-244 | mean and variance of a report of a run are those of the records it counts |
| StatsProtocol.ReportMatchesClock | eli_cs_robot_driver/src/control_node.cpp:322-333 | when the records of a run are the control loop's, a report's elapsed time is within half a microsecond per counted cycle of the time between the wake-ups at the ends of its counted stretch |
| StatsProtocol.GapCanBeAnyLength | eli_cs_robot_driver/src/control_node.cpp:199-206 | for every n there is a run whose second report leaves n of its counted cycles uncovered, against the comment that says at most one |
| Reporting.ReportIsExact | eli_cs_robot_driver/src/rt_timebase.cpp:222-237 | differencing two snapshots gives the counts and sums of the records between them, even across a wrap of the squared sum, if the window's own squared sum fits |
| Reporting.RoundingError | eli_cs_robot_driver/src/rt_timebase.cpp:131-175 | the rounded sum is within half a microsecond per record of the exact one |
| Reporting.ElapsedMatchesClock | eli_cs_robot_driver/src/control_node.cpp:322-333 | a report's elapsed time is within half a microsecond per counted cycle of the time between the two wake-ups its counted cycles span |
| Reporting.ScatterIsVariance | eli_cs_robot_driver/src/rt_timebase.cpp:239-244 | n times the squared sum less the square of the sum is never negative, and zero exactly when all rounded periods are equal |
| Reporting.ReportMoments | eli_cs_robot_driver/src/rt_timebase.cpp:235-244 | for every window that has a record, mean and variance of the report are those of its records; in exact arithmetic the clamp of the variance never acts |
| Reporting.MeanBetweenExtremes | eli_cs_robot_driver/src/rt_timebase.cpp:228-238 | when counted records and window agree, the mean lies between the rounded minimum and maximum |
| ScriptSafety.OnlyOneMotionSource | eli_cs_robot_driver/resources/external_control.script:335-431 | for every packet sequence, unknown modes included, each motion source lives only in its own mode, never two at once, but for the way out after a reverse-socket timeout; both threads are dead after exit |
| ScriptSafety.NoStaleSetpoint | eli_cs_robot_driver/resources/external_control.script:149-251 | every servoj, speedj and speedl argument is the setpoint as it was when the thread read it under the lock: the latest target accepted in its own session by then, or what the session began with; a servo session's first target passed the start check against the actual pose. ScriptPackets.SessionsBeginWhereTheArmIs says what sessions begin with |
| ScriptSafety.SetpointsNeverGoBack | eli_cs_robot_driver/resources/external_control.script:176-251 | over every run a later command never belongs to an earlier session, nor to an earlier setpoint of the same one |
| ScriptSafety.CommandsAreCurrent | eli_cs_robot_driver/resources/external_control.script:176-251 | only the thread's own step reads a setpoint, its own kind's with every target stored so far, and only its next step issues a command, of what was read |
| ScriptSafety.RefusalChangesNothing | eli_cs_robot_driver/resources/external_control.script:376-385 | a servo target is refused exactly if the check is pending and some joint is farther off than the limit; then setpoint and pending check stay, even if halt() returns |
| ScriptPackets.EnteringBegins | eli_cs_robot_driver/resources/external_control.script:352-366 | entering SERVOJ begins a session at the pose the robot reports then, with its check pending; entering SPEEDJ or SPEEDL one at rest; entering another mode none |
| ScriptPackets.SessionsBeginWhereTheArmIs | eli_cs_robot_driver/resources/external_control.script:352-366 | over every run each session was begun by a step that entered its mode from another one, and began with the pose that very step read if it is a servo session, with six zeros otherwise |
| ScriptPackets.ServoHoldsFirst | eli_cs_robot_driver/resources/external_control.script:176-191 | over every run a servoj before any accepted target of its session commands the pose read by the step that entered SERVOJ |
| ScriptPackets.MotionThreadEnds | eli_cs_robot_driver/resources/external_control.script:176-251 | a motion thread whose mode is over ends within three of its steps, and can only issue the command it already holds |
| ScriptPackets.VelocityPacket | eli_cs_robot_driver/resources/external_control.script:386-389 | a packet in SPEEDJ or SPEEDL stores its six words in millionths as that mode's setpoint and session target, and nothing else |
| ScriptPackets.ServoPacket | eli_cs_robot_driver/resources/external_control.script:376-385 | so does one in SERVOJ, unless its check is pending and some joint is farther from the reported pose than the limit: then nothing is stored and the script halts unless halt() returns |
| ScriptPackets.OthersStoreNothing | eli_cs_robot_driver/resources/external_control.script:335-389 | no step but applying a packet adds a target, and none but that and entering a mode touches a setpoint or a session |
| ScriptPackets.FreedrivePacket | eli_cs_robot_driver/resources/external_control.script:403-411 | freedrive is on after a packet in FREEDRIVE exactly if it says START, or it was on and the packet does not say END |
| ScriptPackets.FreedriveElsewhere | eli_cs_robot_driver/resources/external_control.script:340-347 | no other step turns freedrive on; leaving the mode turns it off if its flag is set |
| ScriptSafety.FreedriveAfterExit | eli_cs_robot_driver/resources/external_control.script:413-436 | after exit freedrive is on exactly if the exit was on a reverse-socket timeout and freedrive was on when that happened |
| ScriptSafety.ExitsInFreedrive | eli_cs_robot_driver/resources/external_control.script:421-436 | a run that exits with freedrive on |
| ScriptTrajectory.AtMostOneResult | eli_cs_robot_driver/resources/external_control.script:131-147 | each START gets at most one result, and none exactly if it is still running, was replaced while active, lost its thread between clearing trajectory_active and sending, or was active when the script exited on a timeout |
| ScriptTrajectory.CancelCutsResult | eli_cs_robot_driver/resources/external_control.script:131-147 | a run in which a cancel between the two statements loses the result for good |
| ScriptTrajectory.ExitLosesResultExactly | eli_cs_robot_driver/resources/external_control.script:421-436 | shutting down leaves the latest START without a result exactly if its thread was still alive or the result was lost before |
| ScriptTrajectory.ExitMayLoseResult | eli_cs_robot_driver/resources/external_control.script:421-436 | two runs with the trajectory active at the timeout: one exits without its result, one with it |
| ScriptTrajectory.ExitIsFinal | eli_cs_robot_driver/resources/external_control.script:425-436 | after exit no step of any thread changes anything |
| ScriptTrajectory.ResultsAreForTheLatest | eli_cs_robot_driver/resources/external_control.script:206-217 | every result sent, by whichever thread, is for the latest START and is its first |
| ScriptPackets.ResultsMean | eli_cs_robot_driver/resources/external_control.script:131-147 | over every run, whatever adds a result: the trajectory thread adds SUCCESS, with all n points read and dealt with, or FAILURE, with some point never read; applying a packet or leaving a mode adds exactly CANCELED; no other step adds any |
| ScriptPackets.CancelledActive | eli_cs_robot_driver/resources/external_control.script:209-217 | over every run an active trajectory that a CANCEL packet or leaving TRAJECTORY cancels ends with CANCELED as its one result, inactive and without a thread |
| ScriptPackets.CancelPacket | eli_cs_robot_driver/resources/external_control.script:400-401 | CANCEL stops the thread, leaves no point counted, and adds CANCELED to the latest START exactly if it was active |
| ScriptPackets.LeavingTrajectory | eli_cs_robot_driver/resources/external_control.script:338-340 | so does leaving TRAJECTORY for another mode |
| ScriptPackets.StartPacket | eli_cs_robot_driver/resources/external_control.script:391-399 | START opens a trajectory of the count in the packet's third word, with its thread about to begin; no earlier START gets a result from it, and an active one is marked as replaced |
| ScriptPackets.MovesAreTheirPoints | eli_cs_robot_driver/resources/external_control.script:102-129 | over every run there is one move for each point dealt with that has a supported type, in order, and it is that point's: type, six joints in millionths, time in thousandths, and its blend radius but none on the n-th |
| ScriptTrajectory.PointLedger | eli_cs_robot_driver/resources/external_control.script:102-147 | from a START of n to the next, thread and drains together read at most n points; the moves are those of the points read right after the START, in order, unsupported ones skipped, no blend on the n-th; SUCCESS means all n were dealt with |
| ScriptTrajectory.FinishedLeavesNothing | eli_cs_robot_driver/resources/external_control.script:141-147 | whenever no trajectory thread is alive no points are counted, so a START after a finished, failed or cancelled trajectory drains nothing |
| ScriptTrajectory.MovesAreItsOwn | eli_cs_robot_driver/resources/external_control.script:390-399 | if every earlier START's points were all read, a START's moves are those of an in-order prefix of its own points |
| ExternalControl.Script.constructor | eli_cs_robot_driver/resources/external_control.script:304-323 | the globals start out as the state machine does |
| ExternalControl.Script.DecodeVector6 | eli_cs_robot_driver/resources/external_control.script:93-97 | a new list, so one stored earlier is never changed; element i is word i of the six divided by the ratio |
| ExternalControl.Script.VerifyServoStartSetpoint | eli_cs_robot_driver/resources/external_control.script:164-174 | true exactly if all six plain differences are within the limit; a refusal halts the script unless halt() returns |
| ExternalControl.Script.TrajectoryClearPoints | eli_cs_robot_driver/resources/external_control.script:193-204 | for every arrival pattern it ends with no points counted, having read at most n (floor(T/s) + 1) times; it takes the points in order, at most n of them, and gives up early only after more than T of silence |
| ExternalControl.Script.CancelTrajectory | eli_cs_robot_driver/resources/external_control.script:209-217 | stops the thread, drains, and adds exactly CANCELED to the results of the latest START, exactly if the trajectory was active; earlier results stay |
| ExternalControl.Script.StopOutgoingMode | eli_cs_robot_driver/resources/external_control.script:338-350 | on the whole state: the outgoing mode's source is stopped, that is the trajectory cancelled, freedrive ended if on, or the motion thread stopped |
| ExternalControl.Script.EnterNewMode | eli_cs_robot_driver/resources/external_control.script:352-366 | SERVOJ stores the actual pose as its setpoint, with its check pending, SPEEDJ and SPEEDL six zeros, each in a list of its own; a session begins with it; other modes leave motion alone |
| ExternalControl.Script.ApplyMotionCommand | eli_cs_robot_driver/resources/external_control.script:372-389 | the decoded target becomes the mode's setpoint unless a pending servo check refuses it |
| ExternalControl.Script.ApplyTrajectoryCommand | eli_cs_robot_driver/resources/external_control.script:390-402 | START drains the old trajectory and opens the new one without a result for the old; CANCEL cancels; other actions do nothing |
| ExternalControl.Script.ApplyFreedriveCommand | eli_cs_robot_driver/resources/external_control.script:403-411 | freedrive and its flag, if equal before, stay equal |
| ExternalControl.Script.RunTrajectoryIteration | eli_cs_robot_driver/resources/external_control.script:102-129 | one uninterrupted iteration is the thread's read step and move step: a point is counted and moved to, silence beyond the timeout fails the trajectory |
| ExternalControl.Script.TrajectoryThread | eli_cs_robot_driver/resources/external_control.script:134-147 | run to its end, for every arrival pattern: at most n points and n (floor(T/s) + 1) reads, the moves of exactly the points read, no points left counted, and one result, SUCCESS exactly if all n came and otherwise FAILURE after more than T of silence |
| ExternalControl.Script.HandleControlModeSwitch | eli_cs_robot_driver/resources/external_control.script:335-370 | on the whole state: the steps that stop the outgoing mode and enter the new one |
| ExternalControl.Script.ApplyModeCommand | eli_cs_robot_driver/resources/external_control.script:372-411 | on the whole state: the step that applies a packet in the current mode |
| ExternalControl.Script.RunControlLoopIteration | eli_cs_robot_driver/resources/external_control.script:413-423 | on the whole state: the steps of one packet, the mode switched only if it asks for another one; without a packet the script stops |
| ExternalControl.OnePacketIsARun | eli_cs_robot_driver/resources/external_control.script:413-423 | those steps are a run of the state machine, so the run theorems hold after every packet the method handles |
| HardwareLink.SessionIsNullOrWhole | eli_cs_robot_driver/src/hardware_interface.cpp:632-703 | in every run, whenever rtsi_reconnecting_ is clear the session is null or had connect and rtsiInit succeed, so read() never receives on one under construction |
| HardwareLink.ReadInsideKeepsIOSafe | eli_cs_robot_driver/src/hardware_interface.cpp:1265-1314 | if a read() runs inside every reconnectAll(), the I/O part always has a started session and both recipes |
| HardwareLink.NullSessionInIO | eli_cs_robot_driver/src/hardware_interface.cpp:1272-1314 | a null session gets into the I/O part exactly if reconnection was no longer needed when the flag was last raised and no read has run since |
| HardwareLink.NullUseExactly | eli_cs_robot_driver/src/hardware_interface.cpp:1475-1482 | the unguarded use meets a null session exactly when the I/O part gets to its end without a session |
| HardwareLink.HastyReconnectUsesNull | eli_cs_robot_driver/src/hardware_interface.cpp:1475-1482 | a run that reaches the unguarded use with a null session |
| HardwareOutage.ExpiresExactly | eli_cs_robot_driver/src/hardware_interface.cpp:563-567 | counting whole seconds against the truncated grace period is comparing nanoseconds with that many whole seconds |
| HardwareOutage.ErrorExactlyWhenGraceIsOver | eli_cs_robot_driver/src/hardware_interface.cpp:804-853 | in every run read() returns ERROR exactly if it receives nothing and its episode is at least the truncated grace period old, whichever thread noticed first |
| HardwareOutage.ReadThrowsExactly | eli_cs_robot_driver/src/hardware_interface.cpp:1010-1026 | read() leaves by an exception exactly if its frame brings power on and receiving the second one throws |
| HardwareOutage.EpisodeKeepsItsStart | eli_cs_robot_driver/src/hardware_interface.cpp:805-810 | until an episode is over its start does not move and its attempts are only added to |
| HardwareOutage.AttemptsAreThrottled | eli_cs_robot_driver/src/hardware_interface.cpp:1276-1312 | attempts of an episode start within its grace period, any two at least as many retry intervals apart as they are attempts apart, which bounds their number |
| HardwareOutage.AttemptsExactly | eli_cs_robot_driver/src/hardware_interface.cpp:1272-1299 | in every run a round attempts exactly if the thread rests, the context is alive, the session is absent or started, an episode is open, not given up and within its grace period, and the last attempt of the episode is at least a retry interval ago; it gives up exactly if the grace period is over; no other step does either |
| HardwareOutage.RetriesComeOften | eli_cs_robot_driver/src/hardware_interface.cpp:1291-1301 | while rounds come at most d apart and nobody has given up, attempts come at most the retry interval and d apart, and the last is no longer ago than that |
| HardwareOutage.AttemptsKeepUp | eli_cs_robot_driver/src/hardware_interface.cpp:1291-1301 | so the number of attempts of an episode bounds its length so far: at most d, and a retry interval and d for each attempt |
| HardwareAttempt.AttemptEndsEpisode | eli_cs_robot_driver/src/hardware_interface.cpp:1301-1310 | a round that attempts ends the episode exactly if the attempt returns true, and then the session is whole; otherwise the episode goes on as it was |
| HardwareCommands.ResetsUseTheirOwnCycle | eli_cs_robot_driver/src/hardware_interface.cpp:569-574 | every reset of the command buffers, write()'s or the power-on one, is to a pose received in the very cycle that does it |
| HardwareCommands.PowerOnResets | eli_cs_robot_driver/src/hardware_interface.cpp:1010-1026 | power coming on resets position and velocity commands to the second frame of that read(); if that frame is missed nothing is reset and the transition stays pending |
| HardwareCommands.FramesAreTaken | eli_cs_robot_driver/src/hardware_interface.cpp:844-873 | in any other case a frame's pose, task state and power state, and the state of the connection, are taken as they are, and no command changes |
| HardwareCommands.MissesChangeNothing | eli_cs_robot_driver/src/hardware_interface.cpp:790-842 | a read() without a frame changes neither pose nor task state nor commands |
| HardwareCommands.NoMotionBeforeReset | eli_cs_robot_driver/src/hardware_interface.cpp:1062-1072 | a reset comes between a request made while the robot's task is not playing and the next servoj or speedj, whatever frames are lost; also while playing, unless connected with no frame in hand |
| HardwareCommands.ExposedRequestCanBeOvertaken | eli_cs_robot_driver/src/hardware_interface.cpp:1391-1400 | that exception is exact: from any state just after such a request, whatever mode runs, one lost frame and an acceptable switch to position let any controller target out before a reset |
| HardwareCommands.ExposedRequestHappens | eli_cs_robot_driver/src/hardware_interface.cpp:1379-1399 | a run that makes such a request |
| HardwareCommands.UnresetMotionExactly | eli_cs_robot_driver/src/hardware_interface.cpp:1053-1077 | with a request unmet, a write() sends motion first exactly if its cycle got no frame, the last task state was playing, the robot was connected and position or velocity runs |
| HardwareCommands.ResetIsWhatIsSent | eli_cs_robot_driver/src/hardware_interface.cpp:1062-1077 | a write() that resets while playing sends the pose received in this cycle, or a velocity of zero |
| HardwareCommands.WriteSendsTheCommand | eli_cs_robot_driver/src/hardware_interface.cpp:1062-1077 | over every run, the controllers' update p, v followed by a write() with no reset due sends, while the task plays and the robot is connected, exactly one command: servoj p if position runs, else speedj v if velocity runs, else the freedrive no-op or idle; otherwise nothing |
| HardwareCommands.WriteSendsTheReset | eli_cs_robot_driver/src/hardware_interface.cpp:1053-1077 | with a reset due it logs the reset to this cycle's pose and sends that pose with servoj, or zero velocity with speedj, whatever the controllers wrote; the request is met |
| HardwareCommands.SwitchSetsCommands | eli_cs_robot_driver/src/hardware_interface.cpp:1626-1673 | starting or stopping position sets its command to the actual pose, starting or stopping velocity sets its own to zero, and neither touches the other or sends anything |
| HardwareCommands.RequestsAreMade | eli_cs_robot_driver/src/hardware_interface.cpp:1391-1400 | a reset is asked for exactly by a resend and by the reconnection of the control channel, and recorded with the state it was made in; nothing else asks for one |
| HardwareInterface.Interface.constructor | eli_cs_robot_driver/src/hardware_interface.cpp:481-514 | the object starts out as the state machine does after on_configure() |
| HardwareInterface.Interface.Read | eli_cs_robot_driver/src/hardware_interface.cpp:787-1041 | on the whole state: the read step, and its verdict |
| HardwareInterface.Interface.NoteMissedFrame | eli_cs_robot_driver/src/hardware_interface.cpp:804-842 | opens an episode unless one is open; ERROR if the async thread gave up or the grace period is over |
| HardwareInterface.Interface.CheckPower | eli_cs_robot_driver/src/hardware_interface.cpp:1010-1031 | off to on takes one more frame and resets the commands to it; a frame not received skips the reset and leaves the transition pending |
| HardwareInterface.Interface.Write | eli_cs_robot_driver/src/hardware_interface.cpp:1053-1077 | on the whole state: the write step, with the one command it sends spelled out by the mode that runs |
| HardwareInterface.Interface.DecideRound | eli_cs_robot_driver/src/hardware_interface.cpp:1265-1314 | the method is the decision step of the async thread, of which HardwareOutage.AttemptsExactly gives the exact condition |
| HardwareInterface.Interface.ReconnectAll | eli_cs_robot_driver/src/hardware_interface.cpp:632-731 | the stores of one attempt in order, a command reset asked for exactly if the control channel was reconnected, and the exact ending: true with a whole session; false with the flag clear and no session exactly if a call of the rebuilding failed; an exception that escapes, with the flag raised exactly if it escaped the rebuilding |
| HardwareInterface.Interface.UpdateAsyncIO | eli_cs_robot_driver/src/hardware_interface.cpp:1265-1482 | on the whole state: one round, that is an attempt with the two clearing stores exactly if it succeeded, or the I/O part with its resend if no reconnection was needed, or neither |
| HardwareAttempt.AttemptResult | eli_cs_robot_driver/src/hardware_interface.cpp:619-731 | what an attempt leaves behind, exactly by how it ends: session, flag and episode |
| HardwareAttempt.BrokenPromises | eli_cs_robot_driver/src/hardware_interface.cpp:694-712 | an attempt that returns false with a whole session, and one that leaves the flag raised |
| HardwareAttempt.AttemptedIsARun | eli_cs_robot_driver/src/hardware_interface.cpp:645-730 | an attempt performed in one go, with its caller's stores, extends any run by actions of the async thread alone, and leaves session and commands as the method does |
| HardwareAttempt.RoundIsARun | eli_cs_robot_driver/src/hardware_interface.cpp:1265-1482 | so does a whole round of the async thread |
| HardwareAttempt.CallsAreARun | eli_cs_robot_driver/src/hardware_interface.cpp:744-767 | every sequence of reads, writes, controller updates, mode switches and async rounds on the object is a run of the state machine |
| HardwareAttempt.CallsKeepThePromises | eli_cs_robot_driver/src/hardware_interface.cpp:787-1072 | after every such sequence: only whole sessions are received on, read() gives up exactly when the grace period is over, resets are to a pose of their own cycle and precede motion as they have to |
| ModeSwitch.ModesExclude | eli_cs_robot_driver/src/hardware_interface.cpp:1514-1673 | over every sequence of requests at most one of position, velocity and freedrive runs |
| ModeSwitch.AcceptedModeRuns | eli_cs_robot_driver/src/hardware_interface.cpp:1595-1667 | an accepted request that starts a mode leaves exactly that mode running; one that starts none only stops what it names. ModeKeys says which keys name which mode |
| ModeSwitch.AcceptedModeIsSent | eli_cs_robot_driver/src/hardware_interface.cpp:1066-1077 | after an accepted start write() sends that mode's command; for freedrive idle until it is activated |
| ModeKeys.PositionKeysStartPosition | eli_cs_robot_driver/src/hardware_interface.cpp:1536-1655 | on any well-named robot, with nothing running, the keys joint/position of all joints are accepted, leave exactly position running, and write() sends servoj |
| ModeKeys.VelocityKeysStartVelocity | eli_cs_robot_driver/src/hardware_interface.cpp:1550-1660 | the keys joint/velocity likewise leave exactly velocity running, and write() sends speedj |
| ModeKeys.FreedriveKeyStartsFreedrive | eli_cs_robot_driver/src/hardware_interface.cpp:1559-1667 | the one freedrive key likewise leaves exactly freedrive running, and write() sends its no-op once it is activated |
| ModeKeys.KeysStopTheirMode | eli_cs_robot_driver/src/hardware_interface.cpp:1577-1647 | stopping the keys of a mode is accepted whatever runs, and stops that mode and nothing else |
| ModeKeys.ForeignKeysAreIgnored | eli_cs_robot_driver/src/hardware_interface.cpp:1539-1593 | a key that is no joint's and not the freedrive key changes nothing, wherever it stands in either list |
| ModeKeys.MixedStartsAreRefused | eli_cs_robot_driver/src/hardware_interface.cpp:1539-1613 | a request that starts keys of two modes is refused, even if they are of different joints |
| ModeKeys.PartialStartsAreRefused | eli_cs_robot_driver/src/hardware_interface.cpp:1572-1575 | so is one that starts position on some joints only |
| ModeKeys.StartedExactly | eli_cs_robot_driver/src/hardware_interface.cpp:1536-1667 | the keys of a mode are accepted exactly if no other mode runs but one whose keys the same request stops, and then that mode alone runs; a running mode may be started again |
| ModeSwitch.ModeSwitcher.Prepare | eli_cs_robot_driver/src/hardware_interface.cpp:1514-1624 | OK exactly if every joint is asked for the same list naming at most one mode and, if it names one, no other survives the stops; then the per-joint lists are the requested ones |
| ModeSwitch.ModeSwitcher.CollectStarts | eli_cs_robot_driver/src/hardware_interface.cpp:1536-1575 | fails exactly if some joint is asked for two different modes, else collects each joint's list in order |
| ModeSwitch.ModeSwitcher.CollectStops | eli_cs_robot_driver/src/hardware_interface.cpp:1577-1593 | collects each joint's stops and what they leave of the running modes |
| ModeSwitch.ModeSwitcher.Perform | eli_cs_robot_driver/src/hardware_interface.cpp:1626-1673 | the running flags, command buffers and freedrive flags after a prepared request, and the request forgotten |
| ModeSwitch.ModeSwitcher.SwitchModes | eli_cs_robot_driver/src/hardware_interface.cpp:1514-1673 | prepare, then perform only after OK, is the Switch step of the exclusion theorem |
| Matrix.MulAssociates | eli_cs_robot_calibration/src/calibration.cpp:46-48 | products of 4x4 matrices may be rebracketed |
| Calibration.RegroupingPreservesProduct | eli_cs_robot_calibration/src/calibration.cpp:43-51 | for any number n of segments the n + 1 regrouped matrices multiply to the same transform as the 2n of the chain |
| Calibration.SimplifiedPrefix | eli_cs_robot_calibration/src/calibration.cpp:43-51 | the first k + 1 regrouped matrices multiply to the first 2k + 1 of the chain, so each ends at a joint axis |
| Calibration.ForwardKinematicsIsDH | eli_cs_robot_calibration/src/calibration.cpp:10-22 | forward kinematics over all n joints times the last matrix is the DH product of the robot posed at theta_i + q_i |
| Calibration.ScrewAbsorbsRotation | eli_cs_robot_calibration/src/calibration.cpp:16-18 | a joint's own rotation adds to its theta and leaves the translation along the axis |
| Calibration.UnwrittenTransformIsIdentity | eli_cs_robot_calibration/src/calibration_consumer.cpp:10-22 | for the consumer's robot the one regrouped transform not written is the identity, so the six written ones give the whole DH product |
| Calibration.ScrewZActs | eli_cs_robot_calibration/src/calibration.cpp:30-33 | the first matrix of a segment turns right-handed about z by theta and moves along z by d |
| Calibration.ScrewXActs | eli_cs_robot_calibration/src/calibration.cpp:34-37 | the second turns right-handed about x by alpha and moves along x by a |
| Calibration.SegmentIsDHMatrix | eli_cs_robot_calibration/src/calibration.cpp:24-41 | the two of a segment multiply to the textbook DH matrix |
| Calibration.ConsumerIsModifiedDH | eli_cs_robot_calibration/src/calibration_consumer.cpp:10-19 | the consumer's shift of a and alpha by one row turns the controller's table, read in the modified convention, into the standard one: row 0's own screw times the robot's DH product is the modified DH product, for every joint position |
| Calibration.WrittenLinksAreModifiedDH | eli_cs_robot_calibration/src/calibration_consumer.cpp:10-22 | so if row 0 has neither a nor alpha, forward kinematics on the six written transforms is the modified DH product of the table |
| Calibration.Calibration.BuildChain | eli_cs_robot_calibration/src/calibration.cpp:24-41 | the chain holds the two matrices of every segment in order |
| Calibration.Calibration.GetSimplified | eli_cs_robot_calibration/src/calibration.cpp:43-51 | the loop returns the regrouped chain of the theorem |
| Calibration.Calibration.CalcForwardKinematics | eli_cs_robot_calibration/src/calibration.cpp:10-22 | the loop returns the forward kinematics of the theorem for any number of links |
| Calibration.Calibration.ToYaml | eli_cs_robot_calibration/src/calibration.cpp:53-69 | writes the first six regrouped transforms |
| Calibration.CalibrationConsumer.Consume | eli_cs_robot_calibration/src/calibration_consumer.cpp:10-23 | builds the robot with a and alpha taken from one row further on and stores the six transforms of its chain |
| ScaledClock.ClockDrift | eli_cs_controllers/src/scaled_joint_trajectory_controller.cpp:84-94 | over every run with factors in [0, 1] the clock never outruns real time and after n updates is less than n ns below the exact sum of factor times gap, both read off the calls themselves |
| ScaledClock.ClockReads | eli_cs_controllers/src/scaled_joint_trajectory_controller.cpp:37-42 | the factor in force is the last one read, and the gap is counted from the last update that ran |
| ScaledClock.UptimeIsMonotone | eli_cs_controllers/src/scaled_joint_trajectory_controller.cpp:89-94 | uptime never decreases |
| ScaledClock.SampleNeverAhead | eli_cs_controllers/src/scaled_joint_trajectory_controller.cpp:84-94 | the sampled trajectory time never exceeds real time plus the activation offset, and equals it exactly if every update that had time to scale used a factor of 1 |
| ScaledClock.ReadingsOfOne | eli_cs_controllers/src/scaled_joint_trajectory_controller.cpp:37-42 | which is so when every reading is 1, whatever factor was held at activation |
| ScaledClock.ScaledController.OnActivate | eli_cs_controllers/src/scaled_joint_trajectory_controller.cpp:26-33 | uptime starts at or after time, by the gap between the two readings, which is the offset of SampleNeverAhead; the factor is kept |
| ScaledClock.ScaledController.OnUpdate | eli_cs_controllers/src/scaled_joint_trajectory_controller.cpp:35-94 | the method is the Update step of the run theorems, and samples only while active with a trajectory |

## Left out

- Sockets, the RTSI client, the SDK driver, the controller manager and the trajectory sampler: their outcomes are parameters of the steps.
- Clock syscalls and the translation of a raw deadline to a monotonic sleep: a wake-up is an arbitrary time, with an early-wake bound where a theorem needs one.
- Floating point: scale factors, intervals, poses and moments are reals; an angle is its cosine and sine, added as complex numbers. Square root, Euler angles and force rotation are not modelled.
- 64-bit overflow of clock values, sum_us and the extremes: unbounded integers. The unsigned counters, the sequence word and the window number wrap as in the source.
- StatsProtocol.SnapshotsAreAtomic: assumes fewer than 2^31 records per snapshot attempt, which StatsProtocol.RecheckIsExact shows to be what the 32-bit word can tell, fewer than 2^32 unseen requests and fewer than 2^64 records.
- StatsProtocol.WindowHandshake: loads of the request word return its current value; older values that relaxed ordering would also allow are not modelled.
- ScriptTrajectory.PointLedger: a socket read and the decrement after it are one step; a thread killed between them would put the count off by one.
- ExternalControl.Script.TrajectoryThread: the thread stopped in its middle is only in the state machine. The motion threads' loops, which read a setpoint and command it, are too.
- stop_thread is taken to be synchronous, and a drain runs inside one step of the main loop, as its thread is stopped then.
- The script's command thread, its payload and tool-voltage checks, force mode, read timeouts, popups and log lines.
- HardwareLink.SessionIsNullOrWhole: read() and write() are atomic steps, so a session destroyed while read() is already inside receiveData() is not expressible; the code has no lock against it.
- HardwareOutage.ErrorExactlyWhenGraceIsOver: the async thread's expiry check and its store of reconnect_failed_ are one step, with the rest of its decision.
- HardwareInterface.Interface.UpdateAsyncIO: the class performs a whole attempt with no other thread in between; interleaving is in the state machine. The waits before a resend and in reconnectAll() are not timed.
- HardwareInterface.Interface.Write: freedrive_activated_, which the async thread sets, is a parameter. Commands and running modes otherwise change only between read() and write(); performing a mode switch is ModeSwitch.ModeSwitcher's.
- GPIO and payload updates, tool voltage, the initial script send, force rotation and tool pose in the same functions.
- The controller stopper, dashboard client, freedrive controller, GPIO controller, speed broadcaster, scheduling and memory helpers: thin or single-branch.
- Launch files, descriptions, messages, rviz and MoveIt configuration.
