/** The quaternion routines of ml_math_func.c as compiled for 32-bit words: arrays of `long`
    filled in place, a 64-bit intermediate in each product, every other result cut to 32 bits. */
module Quaternion32 {
  import opened Int32
  import opened Quaternion

  lemma ProductFits64(a: int, b: int)
    requires Within(a, 0x8000_0000) && Within(b, 0x8000_0000)
    ensures Within(a * b, 0x4000_0000_0000_0000)
  {
    MulWithin(a, b, 0x8000_0000, 0x8000_0000);
  }

  method InvQ30Mult(a: Long, b: Long) returns (r: Long)
    ensures r == Wrap32(Q30(a, b))
  {
    ProductFits64(a, b);
    var temp: int := (a as int) * (b as int);
    assert -0x8000_0000_0000_0000 <= temp < 0x8000_0000_0000_0000;
    r := Wrap32(temp / 0x4000_0000);
  }

  method InvQ29Mult(a: Long, b: Long) returns (r: Long)
    ensures r == Wrap32(Q29(a, b))
  {
    ProductFits64(a, b);
    var temp: int := (a as int) * (b as int);
    assert -0x8000_0000_0000_0000 <= temp < 0x8000_0000_0000_0000;
    r := Wrap32(temp / 0x2000_0000);
  }

  function QuatAt(a: array<Long>): (q: Quat)
    requires a.Length == 4
    reads a
  {
    Quat(a[0], a[1], a[2], a[3])
  }

  function VecAt(a: array<Long>): (v: Vec3)
    requires a.Length == 3
    reads a
  {
    Vec3(a[0], a[1], a[2])
  }

  function WrapQuat(q: Quat): Quat {
    Quat(Wrap32(q.w), Wrap32(q.x), Wrap32(q.y), Wrap32(q.z))
  }

  function WrapVec(v: Vec3): Vec3 {
    Vec3(Wrap32(v.x), Wrap32(v.y), Wrap32(v.z))
  }

  // ---------------------------------------------------------------- the product

  function Signed(plus: bool, x: int): int {
    if plus then x else -x
  }

  function Accumulate(r: Long, plus: bool, x: Long): Long {
    if plus then Add32(r, x) else Sub32(r, x)
  }

  lemma AccumulateWrapped(r: int, plus: bool, x: int)
    ensures Accumulate(Wrap32(r), plus, Wrap32(x)) == Wrap32(r + Signed(plus, x))
  {
    WrapCancels(r, x);
  }

  /** Four words added up with signs. */
  lemma FourWords(a: int, b: int, c: int, d: int, s1: bool, s2: bool, s3: bool)
    ensures Accumulate(Accumulate(Accumulate(Wrap32(a), s1, Wrap32(b)), s2, Wrap32(c)), s3, Wrap32(d))
      == Wrap32(a + Signed(s1, b) + Signed(s2, c) + Signed(s3, d))
  {
    AccumulateWrapped(a, s1, b);
    AccumulateWrapped(a + Signed(s1, b), s2, c);
    AccumulateWrapped(a + Signed(s1, b) + Signed(s2, c), s3, d);
  }

  /** One component of the product: four products, the last three with signs. */
  method SumOfProducts(p: seq<Long>, q: seq<Long>, s1: bool, s2: bool, s3: bool) returns (r: Long)
    requires |p| == |q| == 4
    ensures r == Wrap32(Q30(p[0], q[0]) + Signed(s1, Q30(p[1], q[1])) + Signed(s2, Q30(p[2], q[2]))
      + Signed(s3, Q30(p[3], q[3])))
  {
    var a := InvQ30Mult(p[0], q[0]);
    var b := InvQ30Mult(p[1], q[1]);
    var c := InvQ30Mult(p[2], q[2]);
    var d := InvQ30Mult(p[3], q[3]);
    FourWords(Q30(p[0], q[0]), Q30(p[1], q[1]), Q30(p[2], q[2]), Q30(p[3], q[3]), s1, s2, s3);
    r := Accumulate(Accumulate(Accumulate(a, s1, b), s2, c), s3, d);
  }

  /** The exact fixed-point product, each component cut to 32 bits. */
  function QMult32(p: Quat, q: Quat): Quat {
    WrapQuat(QMult(p, q))
  }

  /** `inv_q_mult`. The output is written while the inputs are still read, so it must be a
      different array. */
  method InvQMult(q1: array<Long>, q2: array<Long>, qProd: array<Long>)
    requires q1.Length == q2.Length == qProd.Length == 4
    requires qProd != q1 && qProd != q2
    modifies qProd
    ensures QuatAt(qProd) == QMult32(QuatAt(q1), QuatAt(q2))
  {
    qProd[0] := SumOfProducts(q1[..], [q2[0], q2[1], q2[2], q2[3]], false, false, false);
    qProd[1] := SumOfProducts(q1[..], [q2[1], q2[0], q2[3], q2[2]], true, true, false);
    qProd[2] := SumOfProducts(q1[..], [q2[2], q2[3], q2[0], q2[1]], false, true, true);
    qProd[3] := SumOfProducts(q1[..], [q2[3], q2[2], q2[1], q2[0]], true, false, true);
  }

  function Conj32(q: Quat): Quat {
    Quat(q.w, Neg32(q.x), Neg32(q.y), Neg32(q.z))
  }

  /** What the two 32-bit products of `inv_q_rotate` yield. */
  function Rotate32(q: Quat, v: Vec3): Vec3 {
    var r := QMult32(QMult32(q, Pure(v)), Conj32(q));
    Vec3(r.x, r.y, r.z)
  }

  method Temporary(w: Long, x: Long, y: Long, z: Long) returns (a: array<Long>)
    ensures fresh(a) && a.Length == 4 && QuatAt(a) == Quat(w, x, y, z)
  {
    a := new Long[4](_ => 0);
    a[0], a[1], a[2], a[3] := w, x, y, z;
  }

  /** `inv_q_invert` into a temporary. */
  method InvQInvert(q: array<Long>) returns (inverted: array<Long>)
    requires q.Length == 4
    ensures fresh(inverted) && inverted.Length == 4 && QuatAt(inverted) == Conj32(QuatAt(q))
  {
    inverted := Temporary(q[0], Neg32(q[1]), Neg32(q[2]), Neg32(q[3]));
  }

  /** `inv_q_rotate`: two products through temporaries. `out` may be `input`. */
  method InvQRotate(q: array<Long>, input: array<Long>, out: array<Long>)
    requires q.Length == 4 && input.Length == out.Length == 3
    modifies out
    ensures VecAt(out) == old(Rotate32(QuatAt(q), VecAt(input)))
  {
    var in4 := Temporary(0, input[0], input[1], input[2]);
    var temp1 := Temporary(0, 0, 0, 0);
    InvQMult(q, in4, temp1);
    var temp2 := InvQInvert(q);
    var out4 := Temporary(0, 0, 0, 0);
    InvQMult(temp1, temp2, out4);
    out[0], out[1], out[2] := out4[1], out4[2], out4[3];
  }

  // ---------------------------------------------------------------- the rotation matrix

  function MatAt(a: array<Long>): (m: Mat3)
    requires a.Length == 9
    reads a
  {
    Mat3(Vec3(a[0], a[1], a[2]), Vec3(a[3], a[4], a[5]), Vec3(a[6], a[7], a[8]))
  }

  function WrapMat(m: Mat3): Mat3 {
    Mat3(WrapVec(m.row0), WrapVec(m.row1), WrapVec(m.row2))
  }

  /** A diagonal entry: the sum of two doubled squares, less one. */
  method Diagonal(a: Long, w: Long) returns (r: Long)
    ensures r == Wrap32(Q29(a, a) + Q29(w, w) - ONE)
  {
    var s := InvQ29Mult(a, a);
    var t := InvQ29Mult(w, w);
    WrapCancels(Q29(a, a), Q29(w, w));
    WrapCancels(Q29(a, a) + Q29(w, w), ONE);
    WrapExact(ONE);
    r := Sub32(Add32(s, t), ONE);
  }

  method OffDiagonal(a: Long, b: Long, plus: bool, c: Long, d: Long) returns (r: Long)
    ensures r == Wrap32(Q29(a, b) + Signed(plus, Q29(c, d)))
  {
    var s := InvQ29Mult(a, b);
    var t := InvQ29Mult(c, d);
    AccumulateWrapped(Q29(a, b), plus, Q29(c, d));
    r := Accumulate(s, plus, t);
  }

  /** `inv_quaternion_to_rotation`. */
  method InvQuaternionToRotation(quat: array<Long>, rot: array<Long>)
    requires quat.Length == 4 && rot.Length == 9 && rot != quat
    modifies rot
    ensures MatAt(rot) == WrapMat(QRotation(QuatAt(quat)))
  {
    rot[0] := Diagonal(quat[1], quat[0]);
    rot[1] := OffDiagonal(quat[1], quat[2], false, quat[3], quat[0]);
    rot[2] := OffDiagonal(quat[1], quat[3], true, quat[2], quat[0]);
    rot[3] := OffDiagonal(quat[1], quat[2], true, quat[3], quat[0]);
    rot[4] := Diagonal(quat[2], quat[0]);
    rot[5] := OffDiagonal(quat[2], quat[3], false, quat[1], quat[0]);
    rot[6] := OffDiagonal(quat[1], quat[3], false, quat[2], quat[0]);
    rot[7] := OffDiagonal(quat[2], quat[3], true, quat[1], quat[0]);
    rot[8] := Diagonal(quat[3], quat[0]);
  }

  // ---------------------------------------------------------------- when nothing is lost

  lemma ProductBySquares(a: int, b: int)
    ensures 2 * (a * b) <= a * a + b * b && -2 * (a * b) <= a * a + b * b
    ensures 0 <= a * a && 0 <= b * b
  {
    SquareOfDifference(a, b);
    SquareOfDifference(a, -b);
    NegatedFactor(a, b);
    assert (-b) * (-b) == b * b;
    assert a * -b == -(a * b);
  }

  lemma Squares(q: Quat)
    ensures 0 <= q.w * q.w && 0 <= q.x * q.x && 0 <= q.y * q.y && 0 <= q.z * q.z
  {
  }

  predicate FitsVec(v: Vec3) {
    Fits32(v.x) && Fits32(v.y) && Fits32(v.z)
  }

  lemma DiagonalFits(a: int, w: int, n: int)
    requires a * a + w * w <= n < 3 * 0x800_0000_0000_0000
    ensures Fits32(Q29(a, a) + Q29(w, w) - ONE)
  {
    assert 0 <= a * a && 0 <= w * w;
  }

  lemma OffDiagonalFits(a: int, b: int, plus: bool, c: int, d: int, n: int)
    requires a * a + b * b + c * c + d * d <= n < 3 * 0x800_0000_0000_0000
    ensures Fits32(Q29(a, b) + Signed(plus, Q29(c, d)))
  {
    ProductBySquares(a, b);
    ProductBySquares(c, d);
    FlooredPair(Q29(a, b), a * b, Q29(c, d), c * d, plus, a * a + b * b + c * c + d * d);
  }

  lemma FlooredPair(q: int, ab: int, r: int, cd: int, plus: bool, n: int)
    requires 0 <= 2 * ab - 0x4000_0000 * q < 0x4000_0000 && 0 <= 2 * cd - 0x4000_0000 * r < 0x4000_0000
    requires -n <= 2 * ab + 2 * cd <= n && -n <= 2 * ab - 2 * cd <= n < 3 * 0x800_0000_0000_0000
    ensures Fits32(q + Signed(plus, r))
  {
  }

  /** Main result: for every quaternion whose squared length is below 3/2 the 32-bit matrix
      is the exact one, although intermediate words may overflow (2^30 doubled is 2^31). */
  lemma RotationExact32(q: Quat)
    requires Norm2(q) < 3 * 0x800_0000_0000_0000
    ensures WrapMat(QRotation(q)) == QRotation(q)
  {
    var n := Norm2(q);
    Squares(q);
    DiagonalFits(q.x, q.w, n);
    DiagonalFits(q.y, q.w, n);
    DiagonalFits(q.z, q.w, n);
    OffDiagonalFits(q.x, q.y, false, q.z, q.w, n);
    OffDiagonalFits(q.x, q.y, true, q.z, q.w, n);
    OffDiagonalFits(q.x, q.z, false, q.y, q.w, n);
    OffDiagonalFits(q.x, q.z, true, q.y, q.w, n);
    OffDiagonalFits(q.y, q.z, false, q.x, q.w, n);
    OffDiagonalFits(q.y, q.z, true, q.x, q.w, n);
    var m := QRotation(q);
    WrapVecExact(m.row0);
    WrapVecExact(m.row1);
    WrapVecExact(m.row2);
  }

  lemma WrapVecExact(v: Vec3)
    ensures WrapVec(v) == v <==> FitsVec(v)
  {
    WrapExact(v.x);
    WrapExact(v.y);
    WrapExact(v.z);
  }

  lemma UnitSquareDoubled()
    ensures Q29(ONE, ONE) == 2 * ONE
  {
    assert ONE * ONE == 0x1000_0000_0000_0000;
  }

  /** Any off-diagonal entry fits as long as the squared length is two units short of two. */
  lemma OffDiagonalFitsBelowTwo(a: int, b: int, plus: bool, c: int, d: int, n: int)
    requires a * a + b * b + c * c + d * d <= n <= 0x2000_0000_0000_0000 - 2 * ONE
    ensures Fits32(Q29(a, b) + Signed(plus, Q29(c, d)))
  {
    ProductBySquares(a, b);
    ProductBySquares(c, d);
    FlooredPairBelowTwo(Q29(a, b), a * b, Q29(c, d), c * d, plus, n);
  }

  lemma FlooredPairBelowTwo(q: int, ab: int, r: int, cd: int, plus: bool, n: int)
    requires 0 <= 2 * ab - 0x4000_0000 * q < 0x4000_0000 && 0 <= 2 * cd - 0x4000_0000 * r < 0x4000_0000
    requires -n <= 2 * ab + 2 * cd <= n && -n <= 2 * ab - 2 * cd <= n <= 0x2000_0000_0000_0000 - 2 * ONE
    ensures Fits32(q + Signed(plus, r))
  {
  }

  /** The diagonal entry of the axis component a is below two. */
  predicate DiagonalBelowTwo(a: int, w: int) {
    Q29(a, a) + Q29(w, w) < 3 * ONE
  }

  lemma DiagonalFitsIff(a: int, w: int)
    ensures Fits32(Q29(a, a) + Q29(w, w) - ONE) <==> DiagonalBelowTwo(a, w)
  {
    assert 0 <= a * a && 0 <= w * w;
  }

  /** The exact condition for squared lengths up to two units short of two: the matrix is the
      exact one if and only if w^2 with the largest of x^2, y^2 and z^2 stays below 3/2. */
  lemma RotationExactIff(q: Quat)
    requires Norm2(q) <= 0x2000_0000_0000_0000 - 2 * ONE
    ensures WrapMat(QRotation(q)) == QRotation(q)
      <==> DiagonalBelowTwo(q.x, q.w) && DiagonalBelowTwo(q.y, q.w) && DiagonalBelowTwo(q.z, q.w)
  {
    var n := Norm2(q);
    Squares(q);
    DiagonalFitsIff(q.x, q.w);
    DiagonalFitsIff(q.y, q.w);
    DiagonalFitsIff(q.z, q.w);
    OffDiagonalFitsBelowTwo(q.x, q.y, false, q.z, q.w, n);
    OffDiagonalFitsBelowTwo(q.x, q.y, true, q.z, q.w, n);
    OffDiagonalFitsBelowTwo(q.x, q.z, false, q.y, q.w, n);
    OffDiagonalFitsBelowTwo(q.x, q.z, true, q.y, q.w, n);
    OffDiagonalFitsBelowTwo(q.y, q.z, false, q.x, q.w, n);
    OffDiagonalFitsBelowTwo(q.y, q.z, true, q.x, q.w, n);
    WrapVecExact(QRotation(q).row0);
    WrapVecExact(QRotation(q).row1);
    WrapVecExact(QRotation(q).row2);
  }

  const JUST_ABOVE := Quat(929934738, 929840653, 0, 0)

  lemma JustAbove()
    ensures 3 * 0x800_0000_0000_0000 <= Norm2(JUST_ABOVE) < 3 * 0x800_0000_0000_0000 + ONE
    ensures Q29(929840653, 929840653) + Q29(929934738, 929934738) - ONE >= 0x8000_0000
  {
  }

  /** Main result: 3/2 is the exact threshold. `RotationExact32` holds up to it, and a
      quaternion whose squared length is less than one unit above it has another matrix. */
  lemma ThreeHalvesIsTight()
    ensures 3 * 0x800_0000_0000_0000 <= Norm2(JUST_ABOVE) < 3 * 0x800_0000_0000_0000 + ONE
    ensures WrapMat(QRotation(JUST_ABOVE)) != QRotation(JUST_ABOVE)
  {
    JustAbove();
    FirstEntryDecides(JUST_ABOVE);
  }

  lemma FirstEntryDecides(q: Quat)
    requires Q29(q.x, q.x) + Q29(q.w, q.w) - ONE >= 0x8000_0000
    ensures WrapMat(QRotation(q)) != QRotation(q)
  {
    WrapVecExact(QRotation(q).row0);
  }

  /** For instance, when w and x are both one the first entry is 3, and the word holds -1. */
  lemma RotationOverflows(y: int, z: int)
    ensures QRotation(Quat(ONE, ONE, y, z)).row0.x == 3 * ONE
    ensures Wrap32(3 * ONE) == -ONE
  {
    UnitSquareDoubled();
  }

  lemma RootBound(h: int, b: int)
    requires b >= 0 && h * h <= b * b
    ensures Within(h, b)
  {
    if Abs(h) > b {
      MulMonotone(b, b, Abs(h));
      MulMonotone(Abs(h), b + 1, Abs(h));
    }
  }

  /** A product of quaternions whose exact length is below 31/16 fits in 32-bit words. */
  lemma ProductFits32(p: Quat, q: Quat)
    requires Norm2(p) * Norm2(q) <= 0x1F00_0000_0000_0000 * 0x1F00_0000_0000_0000
    ensures QMult32(p, q) == QMult(p, q)
  {
    var h, r := Hamilton(p, q), QMult(p, q);
    FourSquares(p, q);
    Squares(h);
    RootBound(h.w, 0x1F00_0000_0000_0000);
    RootBound(h.x, 0x1F00_0000_0000_0000);
    RootBound(h.y, 0x1F00_0000_0000_0000);
    RootBound(h.z, 0x1F00_0000_0000_0000);
    ProductRounding(p, q);
    WrapExact(r.w);
    WrapExact(r.x);
    WrapExact(r.y);
    WrapExact(r.z);
  }

  lemma MulBounds(a: int, b: int, x: int, y: int)
    requires 0 <= a <= x && 0 <= b <= y
    ensures 0 <= a * b <= x * y
  {
    MulMonotone(a, b, y);
    MulMonotone(y, a, x);
    MulMonotone(a, 0, b);
  }

  lemma VectorNorm(v: Vec3)
    requires Within(v.x, ONE) && Within(v.y, ONE) && Within(v.z, ONE)
    ensures 0 <= Norm2(Pure(v)) <= 3 * (ONE * ONE)
  {
    MulWithin(v.x, v.x, ONE, ONE);
    MulWithin(v.y, v.y, ONE, ONE);
    MulWithin(v.z, v.z, ONE, ONE);
    Squares(Pure(v));
  }

  lemma ConjNorm(q: Quat)
    ensures Norm2(Conj(q)) == Norm2(q)
  {
  }

  /** Main result: for a quaternion of squared length at most 17/16 and a vector with
      components of magnitude at most one, the 32-bit rotation is the exact one. */
  lemma RotateExact32(q: Quat, v: Vec3)
    requires Norm2(q) <= 17 * 0x100_0000_0000_0000
    requires Within(v.x, ONE) && Within(v.y, ONE) && Within(v.z, ONE)
    ensures Rotate32(q, v) == QRotate(q, v)
  {
    var t, c := QMult(q, Pure(v)), Conj(q);
    ComponentsFit(q);
    ConjExact(q);
    FirstFits(q, v);
    SecondFits(q, v);
    ProductFits32(q, Pure(v));
    ProductFits32(t, c);
  }

  lemma ComponentsFit(q: Quat)
    requires Norm2(q) <= 17 * 0x100_0000_0000_0000
    ensures FitsVec(Vec3(-q.x, -q.y, -q.z))
  {
    Squares(q);
    RootBound(q.x, 0x4200_0000);
    RootBound(q.y, 0x4200_0000);
    RootBound(q.z, 0x4200_0000);
  }

  lemma ConjExact(q: Quat)
    requires FitsVec(Vec3(-q.x, -q.y, -q.z))
    ensures Conj32(q) == Conj(q)
  {
    WrapExact(-q.x);
    WrapExact(-q.y);
    WrapExact(-q.z);
  }

  lemma FirstFits(q: Quat, v: Vec3)
    requires Norm2(q) <= 17 * 0x100_0000_0000_0000
    requires Within(v.x, ONE) && Within(v.y, ONE) && Within(v.z, ONE)
    ensures 0 <= Norm2(q) * Norm2(Pure(v)) <= 51 * 0x100_0000_0000_0000 * 0x1000_0000_0000_0000
  {
    VectorNorm(v);
    Squares(q);
    MulBounds(Norm2(q), Norm2(Pure(v)), 17 * 0x100_0000_0000_0000, 3 * 0x1000_0000_0000_0000);
  }

  lemma SecondFits(q: Quat, v: Vec3)
    requires Norm2(q) <= 17 * 0x100_0000_0000_0000
    requires Within(v.x, ONE) && Within(v.y, ONE) && Within(v.z, ONE)
    ensures Norm2(QMult(q, Pure(v))) * Norm2(Conj(q)) <= 0x1F00_0000_0000_0000 * 0x1F00_0000_0000_0000
  {
    var t := QMult(q, Pure(v));
    FirstFits(q, v);
    NormPreserved(q, Pure(v), 2 * 0x1000_0000_0000_0000);
    ConjNorm(q);
    Squares(q);
    Squares(t);
    MulBounds(Norm2(t), Norm2(q), 52 * 0x100_0000_0000_0000, 17 * 0x100_0000_0000_0000);
  }
}
