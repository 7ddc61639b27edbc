/** Homogeneous 4x4 matrices over the reals and products of sequences of them. */
module Matrix {

  /** A row, or a column, of a matrix. */
  datatype Vec = Vec(x: real, y: real, z: real, w: real)

  /** A matrix as its four rows. */
  datatype Mat = Mat(r0: Vec, r1: Vec, r2: Vec, r3: Vec)

  const IDENTITY := Mat(Vec(1.0, 0.0, 0.0, 0.0), Vec(0.0, 1.0, 0.0, 0.0), Vec(0.0, 0.0, 1.0, 0.0), Vec(0.0, 0.0, 0.0, 1.0))

  function Dot(a: Vec, b: Vec): real {
    a.x * b.x + a.y * b.y + a.z * b.z + a.w * b.w
  }

  function Transpose(m: Mat): Mat {
    Mat(Vec(m.r0.x, m.r1.x, m.r2.x, m.r3.x), Vec(m.r0.y, m.r1.y, m.r2.y, m.r3.y),
        Vec(m.r0.z, m.r1.z, m.r2.z, m.r3.z), Vec(m.r0.w, m.r1.w, m.r2.w, m.r3.w))
  }

  /** Matrix times column. */
  function Apply(m: Mat, c: Vec): Vec {
    Vec(Dot(m.r0, c), Dot(m.r1, c), Dot(m.r2, c), Dot(m.r3, c))
  }

  function Mul(a: Mat, b: Mat): Mat {
    var t := Transpose(b);
    Mat(Apply(t, a.r0), Apply(t, a.r1), Apply(t, a.r2), Apply(t, a.r3))
  }

  function Scale(v: Vec, k: real): Vec {
    Vec(v.x * k, v.y * k, v.z * k, v.w * k)
  }

  function Add(a: Vec, b: Vec): Vec {
    Vec(a.x + b.x, a.y + b.y, a.z + b.z, a.w + b.w)
  }

  lemma ScaleOut(u: Vec, a: Vec, k: real)
    ensures Dot(u, a) * k == Dot(a, Scale(u, k))
  {
    assert (u.x * a.x) * k == a.x * (u.x * k);
    assert (u.y * a.y) * k == a.y * (u.y * k);
    assert (u.z * a.z) * k == a.z * (u.z * k);
    assert (u.w * a.w) * k == a.w * (u.w * k);
  }

  lemma AddOut(a: Vec, u: Vec, v: Vec)
    ensures Dot(a, u) + Dot(a, v) == Dot(a, Add(u, v))
  {
    assert a.x * (u.x + v.x) == a.x * u.x + a.x * v.x;
    assert a.y * (u.y + v.y) == a.y * u.y + a.y * v.y;
    assert a.z * (u.z + v.z) == a.z * u.z + a.z * v.z;
    assert a.w * (u.w + v.w) == a.w * u.w + a.w * v.w;
  }

  lemma DotOfVec(x: real, y: real, z: real, w: real, c: Vec)
    ensures Dot(Vec(x, y, z, w), c) == x * c.x + y * c.y + z * c.z + w * c.w
  {
  }

  /** A matrix applied to a column combines the matrix's columns. */
  lemma ApplyCombines(b: Mat, c: Vec)
    ensures var t := Transpose(b);
            Apply(b, c) == Add(Add(Scale(t.r0, c.x), Scale(t.r1, c.y)), Add(Scale(t.r2, c.z), Scale(t.r3, c.w)))
  {
    hide Dot;
    DotOfVec(b.r0.x, b.r0.y, b.r0.z, b.r0.w, c);
    DotOfVec(b.r1.x, b.r1.y, b.r1.z, b.r1.w, c);
    DotOfVec(b.r2.x, b.r2.y, b.r2.z, b.r2.w, c);
    DotOfVec(b.r3.x, b.r3.y, b.r3.z, b.r3.w, c);
  }

  /** Row times matrix times column, bracketed either way. */
  lemma DotMoves(a: Vec, b: Mat, c: Vec)
    ensures Dot(Apply(Transpose(b), a), c) == Dot(a, Apply(b, c))
  {
    var t := Transpose(b);
    hide Dot, Scale, Add;
    DotOfVec(Dot(t.r0, a), Dot(t.r1, a), Dot(t.r2, a), Dot(t.r3, a), c);
    ApplyCombines(b, c);
    ScaleOut(t.r0, a, c.x);
    ScaleOut(t.r1, a, c.y);
    ScaleOut(t.r2, a, c.z);
    ScaleOut(t.r3, a, c.w);
    var p, q, r, s := Scale(t.r0, c.x), Scale(t.r1, c.y), Scale(t.r2, c.z), Scale(t.r3, c.w);
    AddOut(a, p, q);
    AddOut(a, r, s);
    AddOut(a, Add(p, q), Add(r, s));
  }

  /** The same for one row of a product of three. */
  lemma RowAssociates(a: Vec, b: Mat, c: Mat)
    ensures Apply(Transpose(c), Apply(Transpose(b), a)) == Apply(Transpose(Mul(b, c)), a)
  {
    hide Dot;
    var t := Transpose(c);
    MulColumns(b, c);
    DotMoves(a, b, t.r0);
    DotMoves(a, b, t.r1);
    DotMoves(a, b, t.r2);
    DotMoves(a, b, t.r3);
    DotsCommute(t, Apply(Transpose(b), a));
    DotsCommute(Transpose(Mul(b, c)), a);
  }

  /** The columns of a product are the left matrix applied to the columns of the right one. */
  lemma MulColumns(b: Mat, c: Mat)
    ensures var t := Transpose(c);
            Transpose(Mul(b, c)) == Mat(Apply(b, t.r0), Apply(b, t.r1), Apply(b, t.r2), Apply(b, t.r3))
  {
    var t := Transpose(c);
    DotsCommute(t, b.r0);
    DotsCommute(t, b.r1);
    DotsCommute(t, b.r2);
    DotsCommute(t, b.r3);
    hide Dot;
  }

  lemma DotsCommute(t: Mat, v: Vec)
    ensures Dot(t.r0, v) == Dot(v, t.r0) && Dot(t.r1, v) == Dot(v, t.r1)
    ensures Dot(t.r2, v) == Dot(v, t.r2) && Dot(t.r3, v) == Dot(v, t.r3)
  {
  }

  lemma MulAssociates(a: Mat, b: Mat, c: Mat)
    ensures Mul(Mul(a, b), c) == Mul(a, Mul(b, c))
  {
    RowAssociates(a.r0, b, c);
    RowAssociates(a.r1, b, c);
    RowAssociates(a.r2, b, c);
    RowAssociates(a.r3, b, c);
    hide Apply, Transpose;
    UnfoldMul(Mul(a, b), c);
    UnfoldMul(a, b);
    UnfoldMul(a, Mul(b, c));
  }

  lemma UnfoldMul(a: Mat, b: Mat)
    ensures var t := Transpose(b);
            Mul(a, b) == Mat(Apply(t, a.r0), Apply(t, a.r1), Apply(t, a.r2), Apply(t, a.r3))
  {
  }

  lemma MulIdentity(a: Mat)
    ensures Mul(a, IDENTITY) == a && Mul(IDENTITY, a) == a
  {
  }

  /** The ordered product of a chain. */
  function Product(chain: seq<Mat>): Mat {
    if chain == [] then IDENTITY else Mul(Product(chain[..|chain| - 1]), chain[|chain| - 1])
  }

  lemma ProductAppend(chain: seq<Mat>, m: Mat)
    ensures Product(chain + [m]) == Mul(Product(chain), m)
  {
    hide Mul;
    assert (chain + [m])[..|chain|] == chain;
  }

  /** Replacing two neighbours at the end of a chain by their product changes nothing. */
  lemma ProductAppendTwo(chain: seq<Mat>, m: Mat, n: Mat)
    ensures Product(chain + [m] + [n]) == Mul(Product(chain), Mul(m, n))
  {
    ProductAppend(chain, m);
    ProductAppend(chain + [m], n);
    MulAssociates(Product(chain), m, n);
  }
}
