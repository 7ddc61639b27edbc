/** What controller mode requests do, told from the interface keys they consist of: strings made of a joint's
    name and the mode, and one key for freedrive. */
module ModeKeys {
  import opened Wrappers
  import opened ModeSwitch

  function FreedriveKey(robot: Robot): string {
    robot.tfPrefix + "freedrive_mode" + "/" + "freedrive_async_success"
  }

  /** Joint names differ, and no joint is named so that one of its keys is the freedrive key. */
  predicate WellNamed(robot: Robot) {
    && robot.joints != []
    && (forall i, j :: 0 <= i < j < |robot.joints| ==> robot.joints[i] != robot.joints[j])
    && (forall i :: 0 <= i < |robot.joints| ==>
          robot.joints[i] + "/position" != FreedriveKey(robot) && robot.joints[i] + "/velocity" != FreedriveKey(robot))
  }

  /** One key for each joint. */
  function KeysOf(robot: Robot, suffix: string): (keys: seq<string>)
    ensures |keys| == |robot.joints|
    ensures forall i :: 0 <= i < |keys| ==> keys[i] == robot.joints[i] + suffix
  {
    seq(|robot.joints|, i requires 0 <= i < |robot.joints| => robot.joints[i] + suffix)
  }

  const NOTHING := Running(false, false, false)

  // ----- single keys -----

  lemma SuffixCancels(a: string, b: string, s: string)
    ensures a + s == b + s <==> a == b
  {
    if a + s == b + s {
      assert (a + s)[..|a|] == a && (b + s)[..|b|] == b;
    }
  }

  lemma SuffixesDiffer(a: string, b: string)
    ensures a + "/position" != b + "/velocity"
  {
    var p, v := a + "/position", b + "/velocity";
    assert p[|p| - 1] == 'n' && v[|v| - 1] == 'y';
  }

  /** The source's way of putting a key together comes to the same string. */
  lemma Spelling(joint: string, robot: Robot)
    ensures joint + "/" + HW_IF_POSITION == joint + "/position"
    ensures joint + "/" + HW_IF_VELOCITY == joint + "/velocity"
  {
    assert "/" + HW_IF_POSITION == "/position" && "/" + HW_IF_VELOCITY == "/velocity";
    assert joint + "/" + HW_IF_POSITION == joint + ("/" + HW_IF_POSITION);
    assert joint + "/" + HW_IF_VELOCITY == joint + ("/" + HW_IF_VELOCITY);
  }

  lemma OneKey(robot: Robot, key: string, i: nat)
    requires WellNamed(robot) && i < |robot.joints|
    ensures KeyMode(key, robot.joints[i], robot.tfPrefix)
            == if key == robot.joints[i] + "/position" then Some(Position)
               else if key == robot.joints[i] + "/velocity" then Some(Velocity)
               else if key == FreedriveKey(robot) then Some(Freedrive)
               else None
  {
    Spelling(robot.joints[i], robot);
  }

  lemma JointKey(robot: Robot, i: nat, j: nat)
    requires WellNamed(robot) && i < |robot.joints| && j < |robot.joints|
    ensures KeyMode(robot.joints[j] + "/position", robot.joints[i], robot.tfPrefix) == if i == j then Some(Position) else None
    ensures KeyMode(robot.joints[j] + "/velocity", robot.joints[i], robot.tfPrefix) == if i == j then Some(Velocity) else None
    ensures KeyMode(FreedriveKey(robot), robot.joints[i], robot.tfPrefix) == Some(Freedrive)
  {
    OneKey(robot, robot.joints[j] + "/position", i);
    OneKey(robot, robot.joints[j] + "/velocity", i);
    OneKey(robot, FreedriveKey(robot), i);
    SuffixCancels(robot.joints[i], robot.joints[j], "/position");
    SuffixCancels(robot.joints[i], robot.joints[j], "/velocity");
    SuffixesDiffer(robot.joints[i], robot.joints[j]);
    SuffixesDiffer(robot.joints[j], robot.joints[i]);
    hide KeyMode;
  }

  // ----- lists of keys -----

  lemma {:induction false} NamedAppend(a: seq<string>, b: seq<string>, joint: string, tfPrefix: string)
    ensures Named(a + b, joint, tfPrefix) == Named(a, joint, tfPrefix) + Named(b, joint, tfPrefix)
    decreases |b|
  {
    hide KeyMode, AsList;
    if b == [] {
      assert a + b == a;
    } else {
      var n := |b| - 1;
      NamedAppend(a, b[..n], joint, tfPrefix);
      assert (a + b)[..|a + b| - 1] == a + b[..n];
    }
  }

  lemma {:induction false} NamedOfKeys(robot: Robot, m: Mode, k: nat, i: nat)
    requires WellNamed(robot) && m != Freedrive && k <= |robot.joints| && i < |robot.joints|
    ensures Named(KeysOf(robot, if m == Position then "/position" else "/velocity")[..k], robot.joints[i], robot.tfPrefix)
            == if i < k then [m] else []
  {
    hide KeyMode, Named, KeysOf, WellNamed, AsList;
    EmptyNamed(robot.joints[i], robot.tfPrefix);
    if k > 0 {
      var keys := KeysOf(robot, if m == Position then "/position" else "/velocity");
      NamedOfKeys(robot, m, k - 1, i);
      NamedNext(keys, k - 1, robot.joints[i], robot.tfPrefix);
      JointKey(robot, i, k - 1);
      ListsOf(m);
    } else {
      assert KeysOf(robot, if m == Position then "/position" else "/velocity")[..0] == [];
    }
  }

  lemma EmptyNamed(joint: string, tfPrefix: string)
    ensures Named([], joint, tfPrefix) == []
  {
  }

  lemma ListsOf(m: Mode)
    ensures AsList(Some(m)) == [m] && AsList(None) == []
  {
  }

  /** The keys of a mode name it once on every joint. */
  function ModeKeys(robot: Robot, m: Mode): seq<string> {
    match m
    case Position => KeysOf(robot, "/position")
    case Velocity => KeysOf(robot, "/velocity")
    case Freedrive => [FreedriveKey(robot)]
  }

  lemma NamedOnce(robot: Robot, m: Mode, i: nat)
    requires WellNamed(robot) && i < |robot.joints|
    ensures Named(ModeKeys(robot, m), robot.joints[i], robot.tfPrefix) == [m]
  {
    hide KeyMode;
    if m == Freedrive {
      JointKey(robot, i, i);
      assert ModeKeys(robot, m)[..0] == [];
    } else {
      NamedOfKeys(robot, m, |robot.joints|, i);
      assert ModeKeys(robot, m)[..|robot.joints|] == ModeKeys(robot, m);
    }
  }

  lemma StartsOne(robot: Robot, m: Mode)
    requires WellNamed(robot)
    ensures Acceptable(robot, NOTHING, Request(ModeKeys(robot, m), []))
    ensures Switch(robot, NOTHING, Request(ModeKeys(robot, m), []))
            == Running(m == Position, m == Velocity, m == Freedrive)
  {
    hide Named, ModeKeys;
    forall i | 0 <= i < |robot.joints| ensures Starts(robot, Request(ModeKeys(robot, m), []), i) == [m] {
      NamedOnce(robot, m, i);
    }
  }

  lemma StopsOne(robot: Robot, m: Mode, r: Running)
    requires WellNamed(robot)
    ensures Acceptable(robot, r, Request([], ModeKeys(robot, m)))
    ensures Switch(robot, r, Request([], ModeKeys(robot, m)))
            == Running(r.position && m != Position, r.velocity && m != Velocity, r.freedrive && m != Freedrive)
  {
    NamedOnce(robot, m, 0);
    assert forall i :: 0 <= i < |robot.joints| ==> Starts(robot, Request([], ModeKeys(robot, m)), i) == [];
    hide Named, ModeKeys;
  }

  // ----- what the keys do -----

  /** The position keys of all joints, from nothing running, start position and nothing else, and write()
      then sends servoj. */
  lemma PositionKeysStartPosition(robot: Robot, activated: bool)
    requires WellNamed(robot)
    ensures var req := Request(seq(|robot.joints|, i requires 0 <= i < |robot.joints| => robot.joints[i] + "/position"), []);
            && Acceptable(robot, NOTHING, req)
            && Switch(robot, NOTHING, req) == Running(true, false, false)
            && Dispatch(Switch(robot, NOTHING, req), activated) == Servoj
  {
    StartsOne(robot, Position);
    var keys := seq(|robot.joints|, i requires 0 <= i < |robot.joints| => robot.joints[i] + "/position");
    assert keys == ModeKeys(robot, Position);
    hide Switch, Acceptable;
  }

  /** The velocity keys start velocity, and write() sends speedj. */
  lemma VelocityKeysStartVelocity(robot: Robot, activated: bool)
    requires WellNamed(robot)
    ensures var req := Request(seq(|robot.joints|, i requires 0 <= i < |robot.joints| => robot.joints[i] + "/velocity"), []);
            && Acceptable(robot, NOTHING, req)
            && Switch(robot, NOTHING, req) == Running(false, true, false)
            && Dispatch(Switch(robot, NOTHING, req), activated) == Speedj
  {
    StartsOne(robot, Velocity);
    var keys := seq(|robot.joints|, i requires 0 <= i < |robot.joints| => robot.joints[i] + "/velocity");
    assert keys == ModeKeys(robot, Velocity);
    hide Switch, Acceptable;
  }

  /** The one freedrive key starts freedrive on all joints, and write() sends its no-op once activated. */
  lemma FreedriveKeyStartsFreedrive(robot: Robot, activated: bool)
    requires WellNamed(robot)
    ensures var req := Request([robot.tfPrefix + "freedrive_mode" + "/" + "freedrive_async_success"], []);
            && Acceptable(robot, NOTHING, req)
            && Switch(robot, NOTHING, req) == Running(false, false, true)
            && Dispatch(Switch(robot, NOTHING, req), activated) == (if activated then FreedriveNoop else Idle)
  {
    StartsOne(robot, Freedrive);
    hide Switch, Acceptable;
  }

  /** Stopping a mode's keys is always accepted, stops that mode, and nothing else. */
  lemma KeysStopTheirMode(robot: Robot, r: Running)
    requires WellNamed(robot)
    ensures var stop := seq(|robot.joints|, i requires 0 <= i < |robot.joints| => robot.joints[i] + "/position");
            Acceptable(robot, r, Request([], stop)) && Switch(robot, r, Request([], stop)) == r.(position := false)
    ensures var stop := seq(|robot.joints|, i requires 0 <= i < |robot.joints| => robot.joints[i] + "/velocity");
            Acceptable(robot, r, Request([], stop)) && Switch(robot, r, Request([], stop)) == r.(velocity := false)
    ensures var stop := [robot.tfPrefix + "freedrive_mode" + "/" + "freedrive_async_success"];
            Acceptable(robot, r, Request([], stop)) && Switch(robot, r, Request([], stop)) == r.(freedrive := false)
  {
    StopsOne(robot, Position, r);
    StopsOne(robot, Velocity, r);
    StopsOne(robot, Freedrive, r);
    assert seq(|robot.joints|, i requires 0 <= i < |robot.joints| => robot.joints[i] + "/position") == ModeKeys(robot, Position);
    assert seq(|robot.joints|, i requires 0 <= i < |robot.joints| => robot.joints[i] + "/velocity") == ModeKeys(robot, Velocity);
    hide Switch, Acceptable;
  }

  /** A key that is neither a joint's nor the freedrive key changes nothing, wherever it stands. */
  lemma ForeignKeysAreIgnored(robot: Robot, r: Running, before: seq<string>, key: string, after: seq<string>, others: seq<string>)
    requires WellNamed(robot) && key != FreedriveKey(robot)
    requires forall i :: 0 <= i < |robot.joints| ==> key != robot.joints[i] + "/position" && key != robot.joints[i] + "/velocity"
    ensures var one, two := Request(before + [key] + after, others), Request(before + after, others);
            (Acceptable(robot, r, one) <==> Acceptable(robot, r, two)) && Switch(robot, r, one) == Switch(robot, r, two)
    ensures var one, two := Request(others, before + [key] + after), Request(others, before + after);
            (Acceptable(robot, r, one) <==> Acceptable(robot, r, two)) && Switch(robot, r, one) == Switch(robot, r, two)
  {
    hide Named, KeyMode, Acceptable, Switch;
    forall i | 0 <= i < |robot.joints|
      ensures Named(before + [key] + after, robot.joints[i], robot.tfPrefix) == Named(before + after, robot.joints[i], robot.tfPrefix)
    {
      Foreign(robot, before, key, after, i);
    }
    SameLists(robot, r, Request(before + [key] + after, others), Request(before + after, others));
    SameLists(robot, r, Request(others, before + [key] + after), Request(others, before + after));
  }

  lemma SameLists(robot: Robot, r: Running, one: Request, two: Request)
    requires robot.joints != []
    requires forall i :: 0 <= i < |robot.joints| ==>
               Starts(robot, one, i) == Starts(robot, two, i) && Stops(robot, one, i) == Stops(robot, two, i)
    ensures (Acceptable(robot, r, one) <==> Acceptable(robot, r, two)) && Switch(robot, r, one) == Switch(robot, r, two)
  {
    hide Starts, Stops, Compatible, Performed;
  }

  lemma Foreign(robot: Robot, before: seq<string>, key: string, after: seq<string>, i: nat)
    requires WellNamed(robot) && i < |robot.joints| && key != FreedriveKey(robot)
    requires key != robot.joints[i] + "/position" && key != robot.joints[i] + "/velocity"
    ensures Named(before + [key] + after, robot.joints[i], robot.tfPrefix) == Named(before + after, robot.joints[i], robot.tfPrefix)
  {
    hide KeyMode, Named, WellNamed;
    OneKey(robot, key, i);
    EmptyNamed(robot.joints[i], robot.tfPrefix);
    NamedNext([key], 0, robot.joints[i], robot.tfPrefix);
    assert [key][..1] == [key];
    NamedAppend(before + [key], after, robot.joints[i], robot.tfPrefix);
    NamedAppend(before, [key], robot.joints[i], robot.tfPrefix);
    NamedAppend(before, after, robot.joints[i], robot.tfPrefix);
    assert [key][..0] == [];
  }

  lemma {:induction false} KeyIsNamed(robot: Robot, keys: seq<string>, at: nat, i: nat)
    requires at < |keys| && i < |robot.joints| && KeyMode(keys[at], robot.joints[i], robot.tfPrefix).Some?
    ensures KeyMode(keys[at], robot.joints[i], robot.tfPrefix).value in Named(keys, robot.joints[i], robot.tfPrefix)
    decreases |keys|
  {
    hide KeyMode;
    if at < |keys| - 1 {
      KeyIsNamed(robot, keys[..|keys| - 1], at, i);
    }
  }

  /** Requests that ask for two modes are refused, even if on different joints. */
  lemma MixedStartsAreRefused(robot: Robot, r: Running, req: Request, i: nat, j: nat)
    requires WellNamed(robot) && i < |robot.joints| && j < |robot.joints|
    requires || (robot.joints[i] + "/position" in req.start && robot.joints[j] + "/velocity" in req.start)
             || (robot.joints[i] + "/position" in req.start && FreedriveKey(robot) in req.start)
             || (robot.joints[i] + "/velocity" in req.start && FreedriveKey(robot) in req.start)
    ensures !Acceptable(robot, r, req)
  {
    hide Named, KeyMode, Compatible;
    JointKey(robot, i, i);
    JointKey(robot, j, j);
    StartedKey(robot, req, robot.joints[i] + "/position", i);
    StartedKey(robot, req, robot.joints[i] + "/velocity", i);
    StartedKey(robot, req, robot.joints[j] + "/velocity", j);
    StartedKey(robot, req, FreedriveKey(robot), i);
    if Acceptable(robot, r, req) {
      TwoModesClash(robot, r, req);
    }
  }

  lemma StartedKey(robot: Robot, req: Request, key: string, i: nat)
    requires i < |robot.joints| && KeyMode(key, robot.joints[i], robot.tfPrefix).Some?
    ensures key in req.start ==> KeyMode(key, robot.joints[i], robot.tfPrefix).value in Starts(robot, req, i)
  {
    hide Named, KeyMode;
    if key in req.start {
      var at :| 0 <= at < |req.start| && req.start[at] == key;
      KeyIsNamed(robot, req.start, at, i);
    }
  }

  lemma TwoModesClash(robot: Robot, r: Running, req: Request)
    requires robot.joints != [] && Acceptable(robot, r, req)
    ensures forall m, n :: m in Starts(robot, req, 0) && n in Starts(robot, req, 0) ==> m == n
  {
    hide Named;
  }

  /** So are position keys for some joints only. */
  lemma PartialStartsAreRefused(robot: Robot, r: Running, req: Request, i: nat, j: nat)
    requires WellNamed(robot) && i < |robot.joints| && j < |robot.joints|
    requires robot.joints[i] + "/position" in req.start && robot.joints[j] + "/position" !in req.start
    ensures !Acceptable(robot, r, req)
  {
    hide Named, KeyMode, Compatible;
    JointKey(robot, i, i);
    StartedKey(robot, req, robot.joints[i] + "/position", i);
    NoKeyNoMode(robot, req.start, j);
    AllAlike(robot, r, req, i, j);
  }

  lemma AllAlike(robot: Robot, r: Running, req: Request, i: nat, j: nat)
    requires i < |robot.joints| && j < |robot.joints|
    ensures Acceptable(robot, r, req) ==> Starts(robot, req, i) == Starts(robot, req, j)
  {
    hide Starts, Compatible;
  }

  lemma {:induction false} NoKeyNoMode(robot: Robot, keys: seq<string>, j: nat)
    requires WellNamed(robot) && j < |robot.joints| && robot.joints[j] + "/position" !in keys
    ensures Position !in Named(keys, robot.joints[j], robot.tfPrefix)
  {
    hide KeyMode;
    if keys != [] {
      var n := |keys| - 1;
      NoKeyNoMode(robot, keys[..n], j);
      OneKey(robot, keys[n], j);
    }
  }

  /** Starting a mode's keys is accepted exactly if no other mode runs, but for one whose keys the same request
      stops; then that mode alone runs. A mode that runs already may be started again. */
  lemma StartedExactly(robot: Robot, r: Running, m: Mode, n: Mode)
    requires WellNamed(robot) && AtMostOne(r)
    ensures Acceptable(robot, r, Request(ModeKeys(robot, m), [])) <==> forall k :: Runs(r, k) ==> k == m
    ensures Acceptable(robot, r, Request(ModeKeys(robot, m), ModeKeys(robot, n))) <==> forall k :: Runs(r, k) ==> k == m || k == n
    ensures forall stop :: stop in {[], ModeKeys(robot, n)} && Acceptable(robot, r, Request(ModeKeys(robot, m), stop)) ==>
              Switch(robot, r, Request(ModeKeys(robot, m), stop)) == Running(m == Position, m == Velocity, m == Freedrive)
  {
    assert forall k :: k in ModesOf(r) <==> Runs(r, k);
    StartedBeside(robot, r, m, [], []);
    NamedOnce(robot, n, 0);
    StartedBeside(robot, r, m, ModeKeys(robot, n), [n]);
    hide Acceptable, Switch, ModeKeys, ModesOf;
  }

  lemma StartedBeside(robot: Robot, r: Running, m: Mode, stop: seq<string>, stops: seq<Mode>)
    requires WellNamed(robot) && AtMostOne(r) && Named(stop, robot.joints[0], robot.tfPrefix) == stops
    ensures var req := Request(ModeKeys(robot, m), stop);
            && (Acceptable(robot, r, req) <==> forall k :: k in ModesOf(r) ==> k == m || k in stops)
            && (Acceptable(robot, r, req) ==> Switch(robot, r, req) == Running(m == Position, m == Velocity, m == Freedrive))
  {
    hide Named, ModeKeys;
    var req := Request(ModeKeys(robot, m), stop);
    forall i | 0 <= i < |robot.joints| ensures Starts(robot, req, i) == [m] {
      NamedOnce(robot, m, i);
    }
    assert Stops(robot, req, 0) == stops;
    assert forall k :: k in ModesOf(r) <==> Runs(r, k);
    if Acceptable(robot, r, req) {
      AcceptedModeRuns(robot, r, req);
      assert forall k :: Runs(Switch(robot, r, req), k) <==> k == m;
      var s := Switch(robot, r, req);
      assert Runs(s, Position) <==> m == Position;
      assert Runs(s, Velocity) <==> m == Velocity;
      assert Runs(s, Freedrive) <==> m == Freedrive;
    }
  }
}
