/** Controller mode switching of the hardware interface: prepare_command_mode_switch decides whether a
    request is acceptable, perform_command_mode_switch carries it out, write() sends what runs. */
module ModeSwitch {
  import opened RobotJoints
  import opened Wrappers

  datatype Mode = Position | Velocity | Freedrive

  const HW_IF_POSITION := "position"
  const HW_IF_VELOCITY := "velocity"
  const HW_IF_FREEDRIVE := "freedrive_mode"

  /** The mode an interface key stands for on one joint; freedrive belongs to every joint. */
  function KeyMode(key: string, joint: string, tfPrefix: string): Option<Mode> {
    if key == joint + "/" + HW_IF_POSITION then Some(Position)
    else if key == joint + "/" + HW_IF_VELOCITY then Some(Velocity)
    else if key == tfPrefix + HW_IF_FREEDRIVE + "/" + "freedrive_async_success" then Some(Freedrive)
    else None
  }

  function AsList(m: Option<Mode>): seq<Mode> {
    if m.Some? then [m.value] else []
  }

  /** The modes a list of keys names for one joint, in order, repetitions kept. */
  function Named(keys: seq<string>, joint: string, tfPrefix: string): seq<Mode> {
    if keys == [] then []
    else Named(keys[..|keys| - 1], joint, tfPrefix) + AsList(KeyMode(keys[|keys| - 1], joint, tfPrefix))
  }

  predicate ContainsAny(list: seq<Mode>, wanted: set<Mode>) {
    exists m :: m in list && m in wanted
  }

  function OthersThan(m: Mode): set<Mode> {
    {Position, Velocity, Freedrive} - {m}
  }

  function Without(list: seq<Mode>, m: Mode): (rest: seq<Mode>)
    ensures forall x :: x in rest <==> x in list && x != m
  {
    if list == [] then []
    else if list[0] == m then Without(list[1..], m)
    else [list[0]] + Without(list[1..], m)
  }

  datatype Running = Running(position: bool, velocity: bool, freedrive: bool)

  predicate AtMostOne(r: Running) {
    !(r.position && r.velocity) && !(r.position && r.freedrive) && !(r.velocity && r.freedrive)
  }

  predicate Runs(r: Running, m: Mode) {
    match m case Position => r.position case Velocity => r.velocity case Freedrive => r.freedrive
  }

  /** The modes prepare starts from: velocity overwrites position, freedrive is appended. */
  function ModesOf(r: Running): seq<Mode> {
    (if r.velocity then [Velocity] else if r.position then [Position] else [])
    + (if r.freedrive then [Freedrive] else [])
  }

  /** What is left of the current modes once the named ones have been stopped. */
  function Surviving(current: seq<Mode>, stops: seq<Mode>): (rest: seq<Mode>)
    ensures forall x :: x in rest <==> x in current && x !in stops
  {
    if stops == [] then current else Without(Surviving(current, stops[..|stops| - 1]), stops[|stops| - 1])
  }

  datatype Request = Request(start: seq<string>, stop: seq<string>)

  datatype Robot = Robot(joints: seq<string>, tfPrefix: string)

  predicate OneModeOnly(list: seq<Mode>) {
    forall i, j :: 0 <= i < |list| && 0 <= j < |list| ==> list[i] == list[j]
  }

  function Starts(robot: Robot, req: Request, i: nat): seq<Mode>
    requires i < |robot.joints|
  {
    Named(req.start, robot.joints[i], robot.tfPrefix)
  }

  function Stops(robot: Robot, req: Request, i: nat): seq<Mode>
    requires i < |robot.joints|
  {
    Named(req.stop, robot.joints[i], robot.tfPrefix)
  }

  /** The lists of one joint do not clash: one mode only is started, and if one is, no other survives. */
  predicate Compatible(r: Running, starts: seq<Mode>, stops: seq<Mode>) {
    && OneModeOnly(starts)
    && (starts != [] ==> forall m :: m in ModesOf(r) && m !in stops ==> m == starts[0])
  }

  /** When a request is acceptable: every joint is asked for the same list of modes, that list names
      one mode only, and if it names one, no other mode survives the stops. */
  predicate Acceptable(robot: Robot, r: Running, req: Request)
    requires robot.joints != []
  {
    && (forall i :: 0 <= i < |robot.joints| ==> Starts(robot, req, i) == Starts(robot, req, 0))
    && Compatible(r, Starts(robot, req, 0), Stops(robot, req, 0))
  }

  /** What performing a prepared request does to the running flags. Only joint 0 is looked at. */
  function Performed(r: Running, starts: seq<Mode>, stops: seq<Mode>): Running {
    var s := Running(r.position && Position !in stops, r.velocity && Velocity !in stops, r.freedrive && Freedrive !in stops);
    if Position in starts then s.(velocity := false, position := true)
    else if Velocity in starts then s.(position := false, velocity := true)
    else if Freedrive in starts then Running(false, false, true)
    else s
  }

  /** One round of the controller manager: perform follows only a prepare that said OK. */
  function Switch(robot: Robot, r: Running, req: Request): Running
    requires robot.joints != []
  {
    if Acceptable(robot, r, req) then Performed(r, Starts(robot, req, 0), Stops(robot, req, 0)) else r
  }

  function AfterSwitches(robot: Robot, reqs: seq<Request>): Running
    requires robot.joints != []
  {
    if reqs == [] then Running(false, false, false)
    else Switch(robot, AfterSwitches(robot, reqs[..|reqs| - 1]), reqs[|reqs| - 1])
  }

  /** Over every sequence of requests at most one of position, velocity and freedrive runs. */
  lemma {:induction false} ModesExclude(robot: Robot, reqs: seq<Request>)
    requires robot.joints != []
    ensures AtMostOne(AfterSwitches(robot, reqs))
  {
    if reqs != [] {
      ModesExclude(robot, reqs[..|reqs| - 1]);
      SwitchKeepsExclusion(robot, AfterSwitches(robot, reqs[..|reqs| - 1]), reqs[|reqs| - 1]);
    }
  }

  lemma SwitchKeepsExclusion(robot: Robot, r: Running, req: Request)
    requires robot.joints != [] && AtMostOne(r)
    ensures AtMostOne(Switch(robot, r, req))
  {
    if Acceptable(robot, r, req) && Starts(robot, req, 0) != [] {
      AcceptedModeRuns(robot, r, req);
    }
  }

  /** An accepted request that starts something leaves exactly the mode it asked for running; one that
      starts nothing only stops what it names. */
  lemma AcceptedModeRuns(robot: Robot, r: Running, req: Request)
    requires robot.joints != [] && AtMostOne(r) && Acceptable(robot, r, req)
    ensures var s, starts := Switch(robot, r, req), Starts(robot, req, 0);
            && (starts != [] ==> forall m :: Runs(s, m) <==> m == starts[0])
            && (starts == [] ==> forall m :: Runs(s, m) <==> Runs(r, m) && m !in Stops(robot, req, 0))
  {
    hide Named;
    var starts, stops := Starts(robot, req, 0), Stops(robot, req, 0);
    if starts != [] {
      assert forall m :: m in starts <==> m == starts[0];
      assert forall m :: Runs(r, m) <==> m in ModesOf(r);
      forall m ensures Runs(Switch(robot, r, req), m) <==> m == starts[0] {
        assert Runs(r, m) && m !in stops ==> m == starts[0];
      }
    }
  }

  datatype Sent = Servoj | Speedj | FreedriveNoop | Idle

  /** The command write() sends while the robot's task plays. */
  function Dispatch(r: Running, freedriveActivated: bool): Sent {
    if r.position then Servoj
    else if r.velocity then Speedj
    else if r.freedrive && freedriveActivated then FreedriveNoop
    else Idle
  }

  /** After an accepted start, write() sends that mode's command: servoj for position, speedj for
      velocity, and for freedrive the no-op once freedrive is activated and idle until then. */
  lemma AcceptedModeIsSent(robot: Robot, reqs: seq<Request>, activated: bool)
    requires robot.joints != [] && reqs != []
    requires var r, req := AfterSwitches(robot, reqs[..|reqs| - 1]), reqs[|reqs| - 1];
             Acceptable(robot, r, req) && Starts(robot, req, 0) != []
    ensures var sent := Dispatch(AfterSwitches(robot, reqs), activated);
            match Starts(robot, reqs[|reqs| - 1], 0)[0]
            case Position => sent == Servoj
            case Velocity => sent == Speedj
            case Freedrive => sent == if activated then FreedriveNoop else Idle
  {
    ModesExclude(robot, reqs[..|reqs| - 1]);
    AcceptedModeRuns(robot, AfterSwitches(robot, reqs[..|reqs| - 1]), reqs[|reqs| - 1]);
    var r := AfterSwitches(robot, reqs);
    var m := Starts(robot, reqs[|reqs| - 1], 0)[0];
    hide AfterSwitches, Named;
    assert Runs(r, Position) <==> m == Position;
    assert Runs(r, Velocity) <==> m == Velocity;
    assert Runs(r, Freedrive) <==> m == Freedrive;
  }

  lemma {:induction false} NamedPrefix(keys: seq<string>, k: nat, joint: string, tfPrefix: string)
    requires k <= |keys|
    ensures Named(keys[..k], joint, tfPrefix) <= Named(keys, joint, tfPrefix)
    decreases |keys|
  {
    if k < |keys| {
      var front := keys[..|keys| - 1];
      NamedPrefix(front, k, joint, tfPrefix);
      assert front[..k] == keys[..k];
    } else {
      assert keys[..k] == keys;
    }
  }

  lemma NamedNext(keys: seq<string>, k: nat, joint: string, tfPrefix: string)
    requires k < |keys|
    ensures Named(keys[..k + 1], joint, tfPrefix)
         == Named(keys[..k], joint, tfPrefix) + AsList(KeyMode(keys[k], joint, tfPrefix))
  {
    assert keys[..k + 1][..k] == keys[..k];
  }

  lemma ConflictStays(keys: seq<string>, k: nat, joint: string, tfPrefix: string, other: Mode)
    requires k < |keys| && KeyMode(keys[k], joint, tfPrefix).Some?
    requires other in Named(keys[..k], joint, tfPrefix) && other != KeyMode(keys[k], joint, tfPrefix).value
    ensures !OneModeOnly(Named(keys, joint, tfPrefix))
  {
    NamedNext(keys, k, joint, tfPrefix);
    NamedPrefix(keys, k + 1, joint, tfPrefix);
    var early, all := Named(keys[..k], joint, tfPrefix), Named(keys, joint, tfPrefix);
    var i :| 0 <= i < |early| && early[i] == other;
    assert all[i] == other && all[|early|] == KeyMode(keys[k], joint, tfPrefix).value;
  }

  /** The scan of the keys has handled the first k keys for every joint and key k for the first i. */
  ghost predicate Progress(lists: seq<seq<Mode>>, robot: Robot, keys: seq<string>, k: nat, i: nat) {
    && |lists| == |robot.joints| && k <= |keys| && (i > 0 ==> k < |keys|)
    && forall j :: 0 <= j < |lists| ==>
         lists[j] == Named(keys[..if j < i then k + 1 else k], robot.joints[j], robot.tfPrefix)
  }

  lemma ProgressStep(lists: seq<seq<Mode>>, robot: Robot, keys: seq<string>, k: nat, i: nat)
    requires k < |keys| && i < |lists| && Progress(lists, robot, keys, k, i)
    ensures match KeyMode(keys[k], robot.joints[i], robot.tfPrefix)
            case Some(m) => Progress(lists[i := lists[i] + [m]], robot, keys, k, i + 1)
            case None => Progress(lists, robot, keys, k, i + 1)
  {
    hide Named, KeyMode;
    NamedNext(keys, k, robot.joints[i], robot.tfPrefix);
  }

  lemma ProgressRow(lists: seq<seq<Mode>>, robot: Robot, keys: seq<string>, k: nat)
    requires k < |keys| && Progress(lists, robot, keys, k, |lists|)
    ensures Progress(lists, robot, keys, k + 1, 0)
  {
    hide Named;
  }

  ghost predicate AllSingle(lists: seq<seq<Mode>>) {
    forall j :: 0 <= j < |lists| ==> OneModeOnly(lists[j])
  }

  lemma StaysSingle(lists: seq<seq<Mode>>, i: nat, m: Mode)
    requires AllSingle(lists) && i < |lists| && !ContainsAny(lists[i], OthersThan(m))
    ensures AllSingle(lists[i := lists[i] + [m]])
  {
    var longer := lists[i] + [m];
    assert forall x :: x in lists[i] ==> x == m;
    forall j | 0 <= j < |longer| ensures longer[j] == m {
      assert j < |lists[i]| ==> lists[i][j] in lists[i];
    }
  }

  lemma ConflictIsFinal(lists: seq<seq<Mode>>, robot: Robot, req: Request, k: nat, i: nat)
    requires k < |req.start| && i < |lists| && Progress(lists, robot, req.start, k, i)
    requires var mode := KeyMode(req.start[k], robot.joints[i], robot.tfPrefix);
             mode.Some? && ContainsAny(lists[i], OthersThan(mode.value))
    ensures !OneModeOnly(Starts(robot, req, i))
  {
    hide Named, KeyMode;
    var mode := KeyMode(req.start[k], robot.joints[i], robot.tfPrefix).value;
    var other :| other in lists[i] && other in OthersThan(mode);
    ConflictStays(req.start, k, robot.joints[i], robot.tfPrefix, other);
  }

  ghost predicate Remaining(controlModes: seq<seq<Mode>>, current: seq<Mode>, stopModes: seq<seq<Mode>>) {
    |controlModes| == |stopModes|
    && forall j :: 0 <= j < |controlModes| ==> controlModes[j] == Surviving(current, stopModes[j])
  }

  lemma RemainingStep(controlModes: seq<seq<Mode>>, current: seq<Mode>, stopModes: seq<seq<Mode>>, i: nat, m: Mode)
    requires Remaining(controlModes, current, stopModes) && i < |controlModes|
    ensures Remaining(controlModes[i := Without(controlModes[i], m)], current, stopModes[i := stopModes[i] + [m]])
  {
    hide Without, Surviving;
    SurvivingNext(current, stopModes[i], m);
  }

  /** The else-if chain of perform looks for position first, then velocity, then freedrive. */
  predicate StartsFirst(m: Mode, starts: seq<Mode>) {
    && m in starts
    && (m != Position ==> Position !in starts)
    && (m == Freedrive ==> Velocity !in starts)
  }

  class ModeSwitcher {
    const robot: Robot
    var startModes: seq<seq<Mode>>
    var stopModes: seq<seq<Mode>>
    var running: Running
    var freedriveActivated: bool
    var freedriveEndRequested: bool
    var controllersInitialized: bool
    var positionCommands: Joints
    var velocityCommands: Joints
    var jointPositions: Joints

    /** A robot description always has joints; the source indexes joint 0 unguarded. */
    ghost predicate Valid()
      reads this
    {
      robot.joints != []
    }

    /** What on_configure leaves behind. */
    constructor (robot: Robot, jointPositions: Joints)
      requires robot.joints != []
      ensures Valid() && this.robot == robot && running == AfterSwitches(robot, [])
    {
      this.robot := robot;
      startModes, stopModes := [], [];
      running := Running(false, false, false);
      freedriveActivated, freedriveEndRequested, controllersInitialized := false, false, false;
      positionCommands, velocityCommands := jointPositions, AT_REST;
      this.jointPositions := jointPositions;
    }

    method Prepare(req: Request) returns (ok: bool)
      requires Valid()
      modifies this`startModes, this`stopModes, this`controllersInitialized
      ensures ok <==> Acceptable(robot, running, req)
      ensures ok ==> |startModes| == |stopModes| == |robot.joints|
      ensures ok ==> forall i :: 0 <= i < |robot.joints| ==> startModes[i] == Starts(robot, req, i)
      ensures ok ==> forall i :: 0 <= i < |robot.joints| ==> stopModes[i] == Stops(robot, req, i)
    {
      stopModes := seq(|robot.joints|, _ => []);
      ok := CollectStarts(req);
      if !ok {
        return;
      }
      hide Named;
      var i := 1;
      while i < |startModes|
        invariant 1 <= i <= |startModes|
        invariant forall j :: 0 <= j < i ==> startModes[j] == startModes[0]
      {
        if startModes[i] != startModes[0] {
          ok := false;
          return;
        }
        i := i + 1;
      }
      var controlModes := CollectStops(req);
      ok := !Conflicts(Freedrive, startModes[0], controlModes[0])
         && !Conflicts(Position, startModes[0], controlModes[0])
         && !Conflicts(Velocity, startModes[0], controlModes[0]);
      controllersInitialized := true;
      ConflictFree(startModes[0], controlModes[0]);
    }

    /** The starting interfaces, per joint. Fails at the first key that asks a joint for a second mode. */
    method CollectStarts(req: Request) returns (ok: bool)
      requires Valid()
      modifies this`startModes
      ensures ok <==> forall i :: 0 <= i < |robot.joints| ==> OneModeOnly(Starts(robot, req, i))
      ensures ok ==> |startModes| == |robot.joints|
      ensures ok ==> forall i :: 0 <= i < |robot.joints| ==> startModes[i] == Starts(robot, req, i)
    {
      var keys, n := req.start, |robot.joints|;
      startModes := seq(n, _ => []);
      var k := 0;
      while k < |keys|
        invariant 0 <= k <= |keys| && Progress(startModes, robot, keys, k, 0) && AllSingle(startModes)
      {
        hide Named, KeyMode, Progress, AllSingle;
        var i := 0;
        while i < n
          invariant 0 <= i <= n && |startModes| == n
          invariant Progress(startModes, robot, keys, k, i) && AllSingle(startModes)
        {
          ProgressStep(startModes, robot, keys, k, i);
          var mode := KeyMode(keys[k], robot.joints[i], robot.tfPrefix);
          if mode.Some? {
            if ContainsAny(startModes[i], OthersThan(mode.value)) {
              ok := false;
              ConflictIsFinal(startModes, robot, req, k, i);
              return;
            }
            StaysSingle(startModes, i, mode.value);
            startModes := startModes[i := startModes[i] + [mode.value]];
          }
          i := i + 1;
        }
        ProgressRow(startModes, robot, keys, k);
        k := k + 1;
      }
      assert keys[..k] == keys;
      ok := true;
    }

    /** The stopping interfaces, per joint, and what they leave of the modes that run now. */
    method CollectStops(req: Request) returns (controlModes: seq<seq<Mode>>)
      requires Valid() && |stopModes| == |robot.joints|
      requires forall i :: 0 <= i < |robot.joints| ==> stopModes[i] == []
      modifies this`stopModes
      ensures |stopModes| == |controlModes| == |robot.joints|
      ensures forall i :: 0 <= i < |robot.joints| ==> stopModes[i] == Stops(robot, req, i)
      ensures forall i :: 0 <= i < |robot.joints| ==> controlModes[i] == Surviving(ModesOf(running), Stops(robot, req, i))
    {
      var keys, n, current := req.stop, |robot.joints|, ModesOf(running);
      controlModes := seq(n, _ => current);
      var k := 0;
      while k < |keys|
        invariant 0 <= k <= |keys| && Progress(stopModes, robot, keys, k, 0) && Remaining(controlModes, current, stopModes)
      {
        hide Named, KeyMode, Progress, Remaining;
        var i := 0;
        while i < n
          invariant 0 <= i <= n && |stopModes| == |controlModes| == n
          invariant Progress(stopModes, robot, keys, k, i) && Remaining(controlModes, current, stopModes)
        {
          ProgressStep(stopModes, robot, keys, k, i);
          var mode := KeyMode(keys[k], robot.joints[i], robot.tfPrefix);
          if mode.Some? {
            RemainingStep(controlModes, current, stopModes, i, mode.value);
            stopModes := stopModes[i := stopModes[i] + [mode.value]];
            controlModes := controlModes[i := Without(controlModes[i], mode.value)];
          }
          i := i + 1;
        }
        ProgressRow(stopModes, robot, keys, k);
        k := k + 1;
      }
      assert keys[..k] == keys;
    }

    /** Carries out what the last prepare collected. Calling it without one would index an empty vector. */
    method Perform()
      requires Valid() && startModes != [] && stopModes != []
      modifies this`startModes, this`stopModes, this`running, this`freedriveActivated, this`freedriveEndRequested,
               this`positionCommands, this`velocityCommands
      ensures running == Performed(old(running), old(startModes)[0], old(stopModes)[0])
      ensures startModes == [] && stopModes == []
      ensures positionCommands == if Position in old(startModes)[0] || Position in old(stopModes)[0]
                                  then jointPositions else old(positionCommands)
      ensures velocityCommands == if Velocity in old(stopModes)[0] || StartsFirst(Velocity, old(startModes)[0])
                                  then AT_REST else old(velocityCommands)
      ensures freedriveActivated == (old(freedriveActivated) && Freedrive !in old(stopModes)[0]
                                     && !StartsFirst(Freedrive, old(startModes)[0]))
      ensures freedriveEndRequested == (old(freedriveEndRequested) || Freedrive in old(stopModes)[0])
    {
      PerformStops(stopModes[0]);
      PerformStarts(startModes[0]);
      startModes := [];
      stopModes := [];
    }

    method PerformStops(stops: seq<Mode>)
      modifies this`running, this`freedriveActivated, this`freedriveEndRequested, this`positionCommands, this`velocityCommands
      ensures running == Performed(old(running), [], stops)
      ensures positionCommands == if Position in stops then jointPositions else old(positionCommands)
      ensures velocityCommands == if Velocity in stops then AT_REST else old(velocityCommands)
      ensures freedriveActivated == (old(freedriveActivated) && Freedrive !in stops)
      ensures freedriveEndRequested == (old(freedriveEndRequested) || Freedrive in stops)
    {
      if Position in stops {
        running := running.(position := false);
        positionCommands := jointPositions;
      }
      if Velocity in stops {
        running := running.(velocity := false);
        velocityCommands := AT_REST;
      }
      if Freedrive in stops {
        running := running.(freedrive := false);
        freedriveActivated := false;
        freedriveEndRequested := true;
      }
    }

    method PerformStarts(starts: seq<Mode>)
      modifies this`running, this`freedriveActivated, this`positionCommands, this`velocityCommands
      ensures running == Performed(old(running), starts, [])
      ensures positionCommands == if Position in starts then jointPositions else old(positionCommands)
      ensures velocityCommands == if StartsFirst(Velocity, starts) then AT_REST else old(velocityCommands)
      ensures freedriveActivated == (old(freedriveActivated) && !StartsFirst(Freedrive, starts))
    {
      if Position in starts {
        running := running.(velocity := false);
        positionCommands := jointPositions;
        running := running.(position := true);
      } else if Velocity in starts {
        running := running.(position := false);
        velocityCommands := AT_REST;
        running := running.(velocity := true);
      } else if Freedrive in starts {
        running := running.(position := false, velocity := false);
        freedriveActivated := false;
        running := running.(freedrive := true);
      }
    }

    /** A whole round as the controller manager drives it. */
    method SwitchModes(req: Request) returns (ok: bool)
      requires Valid()
      modifies this
      ensures ok <==> Acceptable(robot, old(running), req)
      ensures running == Switch(robot, old(running), req)
    {
      ok := Prepare(req);
      if ok {
        Perform();
      }
    }
  }

  lemma SurvivingNext(current: seq<Mode>, stops: seq<Mode>, m: Mode)
    ensures Surviving(current, stops + [m]) == Without(Surviving(current, stops), m)
  {
    assert (stops + [m])[..|stops|] == stops;
  }

  /** The source's test for one requested mode: is another mode requested too, or still running? */
  predicate Conflicts(m: Mode, starts: seq<Mode>, remaining: seq<Mode>) {
    m in starts && (ContainsAny(starts, OthersThan(m)) || ContainsAny(remaining, OthersThan(m)))
  }

  lemma ConflictFree(starts: seq<Mode>, remaining: seq<Mode>)
    requires OneModeOnly(starts)
    ensures !Conflicts(Freedrive, starts, remaining) && !Conflicts(Position, starts, remaining)
            && !Conflicts(Velocity, starts, remaining)
            <==> (starts != [] ==> forall m :: m in remaining ==> m == starts[0])
  {
    if starts != [] {
      var m := starts[0];
      assert forall x :: x in starts <==> x == m;
      assert Conflicts(m, starts, remaining) <==> exists x :: x in remaining && x != m;
      assert forall x :: x != m ==> !Conflicts(x, starts, remaining);
    }
  }
}
