/** The DH chain of the calibration package: building it from DH parameters, regrouping it so that each
    matrix ends at a joint axis, and forward kinematics on the regrouped chain.

    An angle is kept as its cosine and sine, and adding angles is complex multiplication, so the
    rotation matrices are exactly those of AngleAxisd without any appeal to real trigonometry. */
module Calibration {
  import opened Matrix

  datatype Angle = Angle(cos: real, sin: real)

  const ZERO_ANGLE := Angle(1.0, 0.0)

  function AddAngles(a: Angle, b: Angle): Angle {
    Angle(a.cos * b.cos - a.sin * b.sin, a.sin * b.cos + a.cos * b.sin)
  }

  function RotZ(a: Angle): Mat {
    ScrewZ(a, 0.0)
  }

  /** Rotation about z by a and translation along z by d. */
  function ScrewZ(a: Angle, d: real): Mat {
    Mat(Vec(a.cos, -a.sin, 0.0, 0.0), Vec(a.sin, a.cos, 0.0, 0.0), Vec(0.0, 0.0, 1.0, d), Vec(0.0, 0.0, 0.0, 1.0))
  }

  /** Rotation about x by a and translation along x by d. */
  function ScrewX(a: Angle, d: real): Mat {
    Mat(Vec(1.0, 0.0, 0.0, d), Vec(0.0, a.cos, -a.sin, 0.0), Vec(0.0, a.sin, a.cos, 0.0), Vec(0.0, 0.0, 0.0, 1.0))
  }

  /** Both screws turn right-handed about their axis and move along it. */
  lemma ScrewZActs(t: Angle, d: real, v: Vec)
    ensures Apply(ScrewZ(t, d), v)
            == Vec(t.cos * v.x - t.sin * v.y, t.sin * v.x + t.cos * v.y, v.z + d * v.w, v.w)
  {
  }

  lemma ScrewXActs(t: Angle, d: real, v: Vec)
    ensures Apply(ScrewX(t, d), v)
            == Vec(v.x + d * v.w, t.cos * v.y - t.sin * v.z, t.sin * v.y + t.cos * v.z, v.w)
  {
  }

  datatype DHSegment = DHSegment(d: real, a: real, theta: Angle, alpha: Angle)

  /** The two matrices of every segment, base to tool. */
  function Chain(segments: seq<DHSegment>): (chain: seq<Mat>)
    ensures |chain| == 2 * |segments|
  {
    if segments == [] then [] else
    var last := segments[|segments| - 1];
    Chain(segments[..|segments| - 1]) + [ScrewZ(last.theta, last.d)] + [ScrewX(last.alpha, last.a)]
  }

  lemma {:induction false} ChainAt(segments: seq<DHSegment>, i: nat)
    requires i < |segments|
    ensures Chain(segments)[2 * i] == ScrewZ(segments[i].theta, segments[i].d)
    ensures Chain(segments)[2 * i + 1] == ScrewX(segments[i].alpha, segments[i].a)
  {
    hide ScrewX, ScrewZ;
    if i < |segments| - 1 {
      ChainAt(segments[..|segments| - 1], i);
    }
  }

  lemma TimesScrewX(v: Vec, alpha: Angle, a: real)
    ensures Apply(Transpose(ScrewX(alpha, a)), v)
            == Vec(v.x, alpha.cos * v.y + alpha.sin * v.z, -alpha.sin * v.y + alpha.cos * v.z, a * v.x + v.w)
  {
  }

  /** The two matrices of a segment multiply to its Denavit-Hartenberg matrix. */
  lemma SegmentIsDHMatrix(g: DHSegment)
    ensures var c, s := g.theta.cos, g.theta.sin;
            Mul(ScrewZ(g.theta, g.d), ScrewX(g.alpha, g.a))
            == Mat(Vec(c, -(s * g.alpha.cos), s * g.alpha.sin, g.a * c),
                   Vec(s, c * g.alpha.cos, -(c * g.alpha.sin), g.a * s),
                   Vec(0.0, g.alpha.sin, g.alpha.cos, g.d),
                   Vec(0.0, 0.0, 0.0, 1.0))
  {
    var z := ScrewZ(g.theta, g.d);
    UnfoldMul(z, ScrewX(g.alpha, g.a));
    TimesScrewX(z.r0, g.alpha, g.a);
    TimesScrewX(z.r1, g.alpha, g.a);
    TimesScrewX(z.r2, g.alpha, g.a);
    TimesScrewX(z.r3, g.alpha, g.a);
    hide Mul, Apply, Transpose, ScrewX;
  }

  /** The regrouped chain: the first matrix alone, then the second matrix of each segment times the
      first of the next, then the last matrix alone. */
  function Simplified(chain: seq<Mat>): (s: seq<Mat>)
    requires |chain| >= 2 && |chain| % 2 == 0
    ensures |s| == |chain| / 2 + 1
  {
    var n := |chain| / 2;
    seq(n + 1, i requires 0 <= i <= n =>
      if i == 0 then chain[0] else if i == n then chain[2 * n - 1] else Mul(chain[2 * i - 1], chain[2 * i]))
  }

  /** Regrouping keeps the meaning of every prefix that ends at a joint axis. */
  lemma {:induction false} SimplifiedPrefix(chain: seq<Mat>, k: nat)
    requires |chain| >= 2 && |chain| % 2 == 0 && k < |chain| / 2
    ensures Product(Simplified(chain)[..k + 1]) == Product(chain[..2 * k + 1])
  {
    hide Mul;
    var s := Simplified(chain);
    assert s[..k + 1] == s[..k] + [s[k]];
    ProductAppend(s[..k], s[k]);
    if k == 0 {
      assert s[..0] == chain[..0] && chain[..1] == chain[..0] + [chain[0]];
      ProductAppend(chain[..0], chain[0]);
    } else {
      SimplifiedPrefix(chain, k - 1);
      assert chain[..2 * k + 1] == chain[..2 * k - 1] + [chain[2 * k - 1]] + [chain[2 * k]];
      ProductAppendTwo(chain[..2 * k - 1], chain[2 * k - 1], chain[2 * k]);
    }
  }

  /** Regrouping preserves meaning: for any number n >= 1 of segments the n + 1 regrouped matrices
      multiply to the same transform as the 2n of the chain. */
  lemma RegroupingPreservesProduct(chain: seq<Mat>)
    requires |chain| >= 2 && |chain| % 2 == 0
    ensures |Simplified(chain)| == |chain| / 2 + 1
    ensures Product(Simplified(chain)) == Product(chain)
  {
    hide Mul;
    var s, n := Simplified(chain), |chain| / 2;
    SimplifiedPrefix(chain, n - 1);
    assert s == s[..n] + [s[n]] && chain == chain[..2 * n - 1] + [chain[2 * n - 1]];
    ProductAppend(s[..n], s[n]);
    ProductAppend(chain[..2 * n - 1], chain[2 * n - 1]);
  }

  /** calcForwardKinematics over the first `links` joints of a regrouped chain. */
  function ForwardKinematics(simplified: seq<Mat>, q: seq<Angle>, links: nat): Mat
    requires links <= |simplified| && links <= |q|
  {
    if links == 0 then IDENTITY
    else Mul(ForwardKinematics(simplified, q, links - 1), Mul(simplified[links - 1], RotZ(q[links - 1])))
  }

  /** The robot with every joint moved by q. */
  function Posed(segments: seq<DHSegment>, q: seq<Angle>): (posed: seq<DHSegment>)
    requires |q| >= |segments|
    ensures |posed| == |segments|
  {
    seq(|segments|, i requires 0 <= i < |segments| =>
      segments[i].(theta := AddAngles(segments[i].theta, q[i])))
  }

  lemma RowTimesRotation(v: Vec, q: Angle)
    ensures Apply(Transpose(RotZ(q)), v) == Vec(q.cos * v.x + q.sin * v.y, -q.sin * v.x + q.cos * v.y, v.z, v.w)
  {
  }

  /** The joint's own rotation adds to theta; the translation along the same axis is untouched. */
  lemma ScrewAbsorbsRotation(theta: Angle, d: real, q: Angle)
    ensures Mul(ScrewZ(theta, d), RotZ(q)) == ScrewZ(AddAngles(theta, q), d)
  {
    var s := ScrewZ(theta, d);
    UnfoldMul(s, RotZ(q));
    RowTimesRotation(s.r0, q);
    RowTimesRotation(s.r1, q);
    RowTimesRotation(s.r2, q);
    RowTimesRotation(s.r3, q);
    hide Mul, Apply, Transpose, RotZ;
  }

  lemma Rebracket(a: Mat, b: Mat, c: Mat, d: Mat, e: Mat)
    ensures Mul(Mul(a, b), Mul(Mul(c, d), e)) == Mul(Mul(a, Mul(b, c)), Mul(d, e))
  {
    hide Mul;
    MulAssociates(c, d, e);
    MulAssociates(a, b, Mul(c, Mul(d, e)));
    MulAssociates(b, c, Mul(d, e));
    MulAssociates(a, Mul(b, c), Mul(d, e));
  }

  /** One more segment multiplies the DH product by its two matrices. */
  lemma ChainProductStep(segments: seq<DHSegment>, k: nat)
    requires k < |segments|
    ensures Product(Chain(segments[..k + 1]))
         == Mul(Product(Chain(segments[..k])),
                Mul(ScrewZ(segments[k].theta, segments[k].d), ScrewX(segments[k].alpha, segments[k].a)))
  {
    hide Mul, ScrewX, ScrewZ;
    assert segments[..k + 1][..k] == segments[..k];
    ProductAppendTwo(Chain(segments[..k]), ScrewZ(segments[k].theta, segments[k].d), ScrewX(segments[k].alpha, segments[k].a));
  }

  lemma FirstJoint(s: seq<Mat>, q: seq<Angle>)
    requires |s| > 0 && |q| > 0
    ensures ForwardKinematics(s, q, 1) == Mul(s[0], RotZ(q[0]))
  {
    hide Mul, RotZ;
    assert ForwardKinematics(s, q, 0) == IDENTITY;
    MulIdentity(Mul(s[0], RotZ(q[0])));
  }

  /** Forward kinematics up to joint k is the DH product of the posed robot up to that joint's screw. */
  lemma {:induction false} ForwardKinematicsPrefix(segments: seq<DHSegment>, q: seq<Angle>, k: nat)
    requires 1 <= k <= |segments| <= |q|
    ensures var posed := Posed(segments, q);
            ForwardKinematics(Simplified(Chain(segments)), q, k)
            == Mul(Product(Chain(posed[..k - 1])), ScrewZ(posed[k - 1].theta, posed[k - 1].d))
  {
    hide Mul, ScrewX, ScrewZ, AddAngles, RotZ;
    var chain, posed := Chain(segments), Posed(segments, q);
    var s := Simplified(chain);
    var here := segments[k - 1];
    ScrewAbsorbsRotation(here.theta, here.d, q[k - 1]);
    if k == 1 {
      ChainAt(segments, 0);
      assert posed[..0] == [];
      FirstJoint(s, q);
      MulIdentity(ScrewZ(posed[0].theta, posed[0].d));
    } else {
      var before := segments[k - 2];
      ForwardKinematicsPrefix(segments, q, k - 1);
      ChainAt(segments, k - 2);
      ChainAt(segments, k - 1);
      Rebracket(Product(Chain(posed[..k - 2])), ScrewZ(posed[k - 2].theta, posed[k - 2].d), ScrewX(before.alpha, before.a),
                ScrewZ(here.theta, here.d), RotZ(q[k - 1]));
      ChainProductStep(posed, k - 2);
    }
  }

  /** Forward kinematics over all n joints, times the last regrouped matrix, is the DH product of the
      robot posed at theta_i + q_i. */
  lemma ForwardKinematicsIsDH(segments: seq<DHSegment>, q: seq<Angle>)
    requires 1 <= |segments| <= |q|
    ensures var s := Simplified(Chain(segments));
            Mul(ForwardKinematics(s, q, |segments|), s[|segments|]) == Product(Chain(Posed(segments, q)))
  {
    hide Mul, ScrewX, ScrewZ, AddAngles, ForwardKinematics, Chain, Product, Simplified;
    var n, posed := |segments|, Posed(segments, q);
    var last := posed[n - 1];
    ForwardKinematicsPrefix(segments, q, n);
    LastRegrouped(segments);
    ChainProductStep(posed, n - 1);
    assert posed[..n] == posed;
    MulAssociates(Product(Chain(posed[..n - 1])), ScrewZ(last.theta, last.d), ScrewX(last.alpha, last.a));
  }

  lemma LastRegrouped(segments: seq<DHSegment>)
    requires segments != []
    ensures var last := segments[|segments| - 1];
            Simplified(Chain(segments))[|segments|] == ScrewX(last.alpha, last.a)
  {
    hide Mul, ScrewX, ScrewZ, Chain;
    ChainAt(segments, |segments| - 1);
  }

  class Calibration {
    var segments: seq<DHSegment>
    var chain: seq<Mat>

    ghost predicate Valid()
      reads this
    {
      chain == Chain(segments)
    }

    constructor (robot: seq<DHSegment>)
      ensures Valid() && segments == robot
    {
      segments, chain := robot, [];
      new;
      BuildChain();
    }

    method BuildChain()
      modifies this`chain
      ensures Valid()
    {
      chain := [];
      var i := 0;
      while i < |segments|
        invariant 0 <= i <= |segments| && chain == Chain(segments[..i])
      {
        var seg1 := ScrewZ(segments[i].theta, segments[i].d);
        chain := chain + [seg1];
        var seg2 := ScrewX(segments[i].alpha, segments[i].a);
        chain := chain + [seg2];
        assert segments[..i + 1][..i] == segments[..i];
        i := i + 1;
      }
      assert segments[..i] == segments;
    }

    /** An empty robot has no first matrix to start from. */
    method GetSimplified() returns (simplified: seq<Mat>)
      requires Valid() && segments != []
      ensures simplified == Simplified(chain)
    {
      hide Mul;
      simplified := [chain[0]];
      var i := 1;
      while i < |chain| - 1
        invariant 1 <= i <= |chain| - 1 && i % 2 == 1
        invariant simplified == Simplified(chain)[..i / 2 + 1]
      {
        simplified := simplified + [Mul(chain[i], chain[i + 1])];
        i := i + 2;
      }
      simplified := simplified + [chain[|chain| - 1]];
    }

    method CalcForwardKinematics(q: seq<Angle>, linkNr: nat) returns (output: Mat)
      requires Valid() && segments != [] && linkNr <= |segments| + 1 && linkNr <= |q|
      ensures output == ForwardKinematics(Simplified(chain), q, linkNr)
    {
      hide Mul;
      output := IDENTITY;
      var simplified := GetSimplified();
      var i := 0;
      while i < linkNr
        invariant 0 <= i <= linkNr && output == ForwardKinematics(Simplified(chain), q, i)
      {
        var rotation := RotZ(q[i]);
        output := Mul(output, Mul(simplified[i], rotation));
        i := i + 1;
      }
    }

    /** The transforms written to YAML, one per link name. */
    method ToYaml() returns (links: seq<Mat>)
      requires Valid() && |segments| >= LINKS - 1
      ensures links == Simplified(chain)[..LINKS]
    {
      var simplified := GetSimplified();
      links := [];
      var i := 0;
      while i < LINKS
        invariant 0 <= i <= LINKS && links == simplified[..i]
      {
        links := links + [simplified[i]];
        i := i + 1;
      }
    }
  }

  const LINKS := 6

  datatype Yaml = NotCalibrated | Links(links: seq<Mat>)

  /** The robot the consumer builds from the controller's DH table: a and alpha come from one row
      further on, the tool row closes with none, and every theta is zero. */
  function ConsumerRobot(d: seq<real>, a: seq<real>, alpha: seq<Angle>): (robot: seq<DHSegment>)
    requires |d| == |a| == |alpha| == LINKS
    ensures |robot| == LINKS
  {
    seq(LINKS, i requires 0 <= i < LINKS =>
      if i < LINKS - 1 then DHSegment(d[i], a[i + 1], ZERO_ANGLE, alpha[i + 1])
      else DHSegment(d[i], 0.0, ZERO_ANGLE, ZERO_ANGLE))
  }

  class CalibrationConsumer {
    var calibrated: bool
    var calibrationParameters: Yaml

    constructor ()
      ensures !calibrated
    {
      calibrated, calibrationParameters := false, NotCalibrated;
    }

    method Consume(d: seq<real>, a: seq<real>, alpha: seq<Angle>) returns (ok: bool)
      requires |d| == |a| == |alpha| == LINKS
      modifies this
      ensures ok && calibrated
      ensures calibrationParameters == Links(Simplified(Chain(ConsumerRobot(d, a, alpha)))[..LINKS])
    {
      hide Chain, Simplified;
      var robot: seq<DHSegment> := [];
      var i := 0;
      while i < LINKS - 1
        invariant 0 <= i <= LINKS - 1 && robot == ConsumerRobot(d, a, alpha)[..i]
      {
        robot := robot + [DHSegment(d[i], a[i + 1], ZERO_ANGLE, alpha[i + 1])];
        i := i + 1;
      }
      robot := robot + [DHSegment(d[5], 0.0, ZERO_ANGLE, ZERO_ANGLE)];
      assert robot == ConsumerRobot(d, a, alpha);
      var calibration := new Calibration(robot);
      var links := calibration.ToYaml();
      calibrationParameters := Links(links);
      calibrated := true;
      ok := true;
    }

    /** None stands for the exception thrown before any calibration. */
    method GetCalibrationParameters() returns (r: Yaml)
      ensures r == if calibrated then calibrationParameters else NotCalibrated
    {
      r := if calibrated then calibrationParameters else NotCalibrated;
    }
  }

  /** Nothing is lost in the YAML: of the consumer's seven regrouped transforms the one that is not
      written is the identity, so the six that are, driven by the joints, already give the whole DH
      product. */
  lemma {:induction false} UnwrittenTransformIsIdentity(d: seq<real>, a: seq<real>, alpha: seq<Angle>, q: seq<Angle>)
    requires |d| == |a| == |alpha| == LINKS && |q| >= LINKS
    ensures var robot := ConsumerRobot(d, a, alpha);
            var s := Simplified(Chain(robot));
            && |s| == LINKS + 1 && s[LINKS] == IDENTITY
            && ForwardKinematics(s, q, LINKS) == Product(Chain(Posed(robot, q)))
  {
    var robot := ConsumerRobot(d, a, alpha);
    var s := Simplified(Chain(robot));
    assert ScrewX(ZERO_ANGLE, 0.0) == IDENTITY;
    hide Mul, ScrewX, ScrewZ, AddAngles, ForwardKinematics, Chain, Product;
    LastRegrouped(robot);
    ForwardKinematicsIsDH(robot, q);
    MulIdentity(ForwardKinematics(s, q, LINKS));
  }

  /** The product over the first n joints by the modified convention: each joint's a and alpha, from its own
      row of the table, come before its rotation and offset. */
  function ModifiedDH(d: seq<real>, a: seq<real>, alpha: seq<Angle>, q: seq<Angle>, n: nat): Mat
    requires n <= |d| && n <= |a| && n <= |alpha| && n <= |q|
  {
    if n == 0 then IDENTITY
    else Mul(ModifiedDH(d, a, alpha, q, n - 1), Mul(ScrewX(alpha[n - 1], a[n - 1]), ScrewZ(q[n - 1], d[n - 1])))
  }

  lemma Regrouped(x: Mat, p: Mat, z: Mat, y: Mat, w: Mat)
    ensures Mul(x, Mul(Mul(p, Mul(z, y)), w)) == Mul(Mul(x, Mul(p, z)), Mul(y, w))
  {
    hide Mul;
    MulAssociates(p, z, y);
    MulAssociates(Mul(p, z), y, w);
    MulAssociates(x, Mul(p, z), Mul(y, w));
  }

  lemma {:induction false} PosedRow(d: seq<real>, a: seq<real>, alpha: seq<Angle>, q: seq<Angle>, i: nat)
    requires |d| == |a| == |alpha| == LINKS <= |q| && i < LINKS
    ensures var g := Posed(ConsumerRobot(d, a, alpha), q)[i];
            && g.theta == q[i] && g.d == d[i]
            && g.a == (if i < LINKS - 1 then a[i + 1] else 0.0)
            && g.alpha == (if i < LINKS - 1 then alpha[i + 1] else ZERO_ANGLE)
  {
  }

  lemma {:induction false} FirstModified(d: seq<real>, a: seq<real>, alpha: seq<Angle>, q: seq<Angle>)
    requires |d| == |a| == |alpha| == LINKS <= |q|
    ensures ModifiedDH(d, a, alpha, q, 1) == Mul(ScrewX(alpha[0], a[0]), ScrewZ(q[0], d[0]))
  {
    hide Mul, ScrewX, ScrewZ;
    assert ModifiedDH(d, a, alpha, q, 0) == IDENTITY;
    MulIdentity(Mul(ScrewX(alpha[0], a[0]), ScrewZ(q[0], d[0])));
  }

  lemma {:induction false} ModifiedPrefix(d: seq<real>, a: seq<real>, alpha: seq<Angle>, q: seq<Angle>, k: nat)
    requires |d| == |a| == |alpha| == LINKS <= |q| && 1 <= k <= LINKS
    ensures var posed := Posed(ConsumerRobot(d, a, alpha), q);
            Mul(ScrewX(alpha[0], a[0]), Mul(Product(Chain(posed[..k - 1])), ScrewZ(q[k - 1], d[k - 1])))
            == ModifiedDH(d, a, alpha, q, k)
  {
    hide Mul, ScrewX, ScrewZ, Posed, ConsumerRobot, Chain, Product;
    var posed := Posed(ConsumerRobot(d, a, alpha), q);
    var first := ScrewX(alpha[0], a[0]);
    if k == 1 {
      FirstModified(d, a, alpha, q);
      EmptyProduct(posed);
      MulIdentity(ScrewZ(q[0], d[0]));
    } else {
      ModifiedPrefix(d, a, alpha, q, k - 1);
      PosedRow(d, a, alpha, q, k - 2);
      ChainProductStep(posed, k - 2);
      Regrouped(first, Product(Chain(posed[..k - 2])), ScrewZ(q[k - 2], d[k - 2]), ScrewX(alpha[k - 1], a[k - 1]),
                ScrewZ(q[k - 1], d[k - 1]));
    }
  }

  lemma EmptyProduct(segments: seq<DHSegment>)
    ensures Product(Chain(segments[..0])) == IDENTITY
  {
    assert segments[..0] == [];
  }

  lemma NoScrew()
    ensures ScrewX(ZERO_ANGLE, 0.0) == IDENTITY
  {
  }

  /** The whole posed robot ends with its last joint's screw: its last row closes with nothing. */
  lemma {:induction false} PosedProduct(d: seq<real>, a: seq<real>, alpha: seq<Angle>, q: seq<Angle>)
    requires |d| == |a| == |alpha| == LINKS <= |q|
    ensures var posed := Posed(ConsumerRobot(d, a, alpha), q);
            Product(Chain(posed)) == Mul(Product(Chain(posed[..LINKS - 1])), ScrewZ(q[LINKS - 1], d[LINKS - 1]))
  {
    hide Mul, ScrewX, ScrewZ, Posed, ConsumerRobot, Chain, Product;
    var posed := Posed(ConsumerRobot(d, a, alpha), q);
    PosedRow(d, a, alpha, q, LINKS - 1);
    ChainProductStep(posed, LINKS - 1);
    assert posed[..LINKS] == posed;
    NoScrew();
    MulIdentity(ScrewZ(q[LINKS - 1], d[LINKS - 1]));
  }

  /** What the shift of a and alpha by a row is for: with the first row's own a and alpha in front, the robot
      the consumer builds is the controller's table read by the modified convention. */
  lemma {:induction false} ConsumerIsModifiedDH(d: seq<real>, a: seq<real>, alpha: seq<Angle>, q: seq<Angle>)
    requires |d| == |a| == |alpha| == LINKS <= |q|
    ensures Mul(ScrewX(alpha[0], a[0]), Product(Chain(Posed(ConsumerRobot(d, a, alpha), q))))
            == ModifiedDH(d, a, alpha, q, LINKS)
  {
    hide Mul, ScrewX, ScrewZ, Posed, ConsumerRobot, Chain, Product, ModifiedDH;
    ModifiedPrefix(d, a, alpha, q, LINKS);
    PosedProduct(d, a, alpha, q);
  }

  /** So it is that table if these two are zero, and then the six written transforms, driven by the joints,
      give it. */
  lemma {:induction false} WrittenLinksAreModifiedDH(d: seq<real>, a: seq<real>, alpha: seq<Angle>, q: seq<Angle>)
    requires |d| == |a| == |alpha| == LINKS <= |q|
    requires a[0] == 0.0 && alpha[0] == ZERO_ANGLE
    ensures ForwardKinematics(Simplified(Chain(ConsumerRobot(d, a, alpha))), q, LINKS) == ModifiedDH(d, a, alpha, q, LINKS)
  {
    hide Mul, ScrewX, ScrewZ, Posed, ConsumerRobot, Chain, Product, ForwardKinematics, Simplified, ModifiedDH;
    ConsumerIsModifiedDH(d, a, alpha, q);
    UnwrittenTransformIsIdentity(d, a, alpha, q);
    NoScrew();
    MulIdentity(Product(Chain(Posed(ConsumerRobot(d, a, alpha), q))));
  }
}
