/** Fixed-point quaternion products and rotations of ml_math_func.c over mathematical
    integers: 1.0 is 2^30, and every product is floored as it is formed. */
module Quaternion {

  const ONE := 0x4000_0000

  datatype Quat = Quat(w: int, x: int, y: int, z: int)
  datatype Vec3 = Vec3(x: int, y: int, z: int)
  datatype Mat3 = Mat3(row0: Vec3, row1: Vec3, row2: Vec3)

  /** `inv_q30_mult` before its result is cut to 32 bits: an arithmetic shift floors. */
  function Q30(a: int, b: int): (r: int)
    ensures 0 <= a * b - 0x4000_0000 * r < 0x4000_0000
  {
    a * b / 0x4000_0000
  }

  /** `inv_q29_mult`, likewise. */
  function Q29(a: int, b: int): (r: int)
    ensures 0 <= 2 * (a * b) - 0x4000_0000 * r < 0x4000_0000
  {
    a * b / 0x2000_0000
  }

  function Norm2(q: Quat): int {
    q.w * q.w + q.x * q.x + q.y * q.y + q.z * q.z
  }

  /** `inv_q_invert`. */
  function Conj(q: Quat): Quat {
    Quat(q.w, -q.x, -q.y, -q.z)
  }

  function Pure(v: Vec3): Quat {
    Quat(0, v.x, v.y, v.z)
  }

  /** `inv_q_mult`. */
  function QMult(p: Quat, q: Quat): Quat {
    Quat(
      Q30(p.w, q.w) - Q30(p.x, q.x) - Q30(p.y, q.y) - Q30(p.z, q.z),
      Q30(p.w, q.x) + Q30(p.x, q.w) + Q30(p.y, q.z) - Q30(p.z, q.y),
      Q30(p.w, q.y) - Q30(p.x, q.z) + Q30(p.y, q.w) + Q30(p.z, q.x),
      Q30(p.w, q.z) + Q30(p.x, q.y) - Q30(p.y, q.x) + Q30(p.z, q.w))
  }

  /** `inv_q_rotate`: the vector part of q v q*. */
  function QRotate(q: Quat, v: Vec3): Vec3 {
    var r := QMult(QMult(q, Pure(v)), Conj(q));
    Vec3(r.x, r.y, r.z)
  }

  /** `inv_quaternion_to_rotation`. */
  function QRotation(q: Quat): Mat3 {
    Mat3(
      Vec3(Q29(q.x, q.x) + Q29(q.w, q.w) - ONE, Q29(q.x, q.y) - Q29(q.z, q.w), Q29(q.x, q.z) + Q29(q.y, q.w)),
      Vec3(Q29(q.x, q.y) + Q29(q.z, q.w), Q29(q.y, q.y) + Q29(q.w, q.w) - ONE, Q29(q.y, q.z) - Q29(q.x, q.w)),
      Vec3(Q29(q.x, q.z) - Q29(q.y, q.w), Q29(q.y, q.z) + Q29(q.x, q.w), Q29(q.z, q.z) + Q29(q.w, q.w) - ONE))
  }

  /** `inv_matrix_vector_mult`. */
  function MatVec(m: Mat3, v: Vec3): Vec3 {
    Vec3(Dot(m.row0, v), Dot(m.row1, v), Dot(m.row2, v))
  }

  function Dot(r: Vec3, v: Vec3): int {
    Q30(r.x, v.x) + Q30(r.y, v.y) + Q30(r.z, v.z)
  }

  const IDENTITY := Quat(ONE, 0, 0, 0)

  lemma OneTimes(b: int)
    ensures Q30(ONE, b) == b && Q30(b, ONE) == b
  {
  }

  lemma ZeroTimes(b: int)
    ensures Q30(0, b) == 0 && Q30(b, 0) == 0
  {
  }

  /** The identity quaternion loses nothing to rounding on either side. */
  lemma IdentityIsNeutral(q: Quat)
    ensures QMult(IDENTITY, q) == q && QMult(q, IDENTITY) == q
  {
    OneTimes(q.w);
    OneTimes(q.x);
    OneTimes(q.y);
    OneTimes(q.z);
    ZeroTimes(q.w);
    ZeroTimes(q.x);
    ZeroTimes(q.y);
    ZeroTimes(q.z);
  }

  // ---------------------------------------------------------------- the product

  /** The Hamilton product with nothing rounded: 2^30 times the real product. */
  function Hamilton(p: Quat, q: Quat): Quat {
    Quat(
      p.w * q.w - p.x * q.x - p.y * q.y - p.z * q.z,
      p.w * q.x + p.x * q.w + p.y * q.z - p.z * q.y,
      p.w * q.y - p.x * q.z + p.y * q.w + p.z * q.x,
      p.w * q.z + p.x * q.y - p.y * q.x + p.z * q.w)
  }

  predicate Within(e: int, bound: int) {
    -bound <= e <= bound
  }

  /** Each component of the fixed-point product is less than 3 units from the exact one,
      the real part from above and the others from below. */
  lemma ProductRounding(p: Quat, q: Quat)
    ensures var r, h := QMult(p, q), Hamilton(p, q);
      && -ONE < ONE * r.w - h.w < 3 * ONE
      && -3 * ONE < ONE * r.x - h.x < ONE
      && -3 * ONE < ONE * r.y - h.y < ONE
      && -3 * ONE < ONE * r.z - h.z < ONE
  {
  }

  /** Euler's four-square identity. */
  lemma FourSquares(p: Quat, q: Quat)
    ensures Norm2(Hamilton(p, q)) == Norm2(p) * Norm2(q)
  {
  }

  lemma ScaledNorm(r: Quat)
    ensures Norm2(Quat(ONE * r.w, ONE * r.x, ONE * r.y, ONE * r.z)) == ONE * ONE * Norm2(r)
  {
    assert ONE * ONE * Norm2(r)
      == ONE * ONE * (r.w * r.w) + ONE * ONE * (r.x * r.x) + ONE * ONE * (r.y * r.y) + ONE * ONE * (r.z * r.z);
  }

  function Abs(x: int): nat {
    if x < 0 then -x else x
  }

  lemma AbsBySquare(h: int, b: int)
    ensures 4 * (b * Abs(h)) <= 4 * (h * h) + b * b
  {
    var a := Abs(h);
    assert a * a == h * h;
    SquareOfDifference(2 * a, b);
  }

  lemma SquareOfDifference(a: int, b: int)
    ensures 2 * (b * a) <= a * a + b * b
  {
    assert (a - b) * (a - b) == a * a - 2 * (b * a) + b * b;
  }

  lemma FactorOut(k: int, a: int, b: int, c: int, d: int)
    ensures k * a + k * b + k * c + k * d == k * (a + b + c + d)
  {
  }

  lemma SumFour(p: int, q: int, r: int, s: int, pp: int, qq: int, rr: int, ss: int, b: int)
    requires 4 * p <= 4 * pp + b && 4 * q <= 4 * qq + b && 4 * r <= 4 * rr + b && 4 * s <= 4 * ss + b
    requires pp + qq + rr + ss <= b
    ensures p + q + r + s <= 2 * b
  {
  }

  lemma CancelFactor(b: int, s: int)
    requires b > 0 && b * s <= 2 * (b * b)
    ensures s <= 2 * b
  {
    if s > 2 * b {
      MulMonotone(b, 2 * b + 1, s);
    }
  }

  /** Four numbers whose squares sum to at most b^2 have magnitudes summing to at most 2b. */
  lemma SumOfMagnitudes(h: Quat, b: int)
    requires b > 0 && Norm2(h) <= b * b
    ensures Abs(h.w) + Abs(h.x) + Abs(h.y) + Abs(h.z) <= 2 * b
  {
    AbsBySquare(h.w, b);
    AbsBySquare(h.x, b);
    AbsBySquare(h.y, b);
    AbsBySquare(h.z, b);
    FactorOut(b, Abs(h.w), Abs(h.x), Abs(h.y), Abs(h.z));
    SumFour(b * Abs(h.w), b * Abs(h.x), b * Abs(h.y), b * Abs(h.z),
      h.w * h.w, h.x * h.x, h.y * h.y, h.z * h.z, b * b);
    CancelFactor(b, Abs(h.w) + Abs(h.x) + Abs(h.y) + Abs(h.z));
  }

  lemma MulMonotone(k: int, a: int, b: int)
    requires k >= 0 && a <= b
    ensures k * a <= k * b
  {
  }

  /** Perturbing h by less than 3 units changes its square by at most 6|h| + 9 units. */
  lemma SquareShift(h: int, g: int)
    requires Within(g - h, 3 * ONE)
    ensures Within(g * g - h * h, 6 * ONE * Abs(h) + 9 * ONE * ONE)
  {
    var d := g - h;
    assert g * g - h * h == 2 * h * d + d * d;
    MulWithin(h, d, Abs(h), 3 * ONE);
    MulWithin(d, d, 3 * ONE, 3 * ONE);
  }

  lemma MulWithinNat(a: nat, b: int, x: int, y: int)
    requires a <= x && Within(b, y)
    ensures Within(a * b, x * y)
  {
    MulMonotone(a, b, y);
    MulMonotone(a, -y, b);
    MulMonotone(y, a, x);
    NegatedFactor(a, y);
  }

  lemma NegatedFactor(a: int, b: int)
    ensures a * -b == -(a * b) == -a * b
  {
  }

  lemma MulWithin(a: int, b: int, x: int, y: int)
    requires Within(a, x) && Within(b, y)
    ensures Within(a * b, x * y)
  {
    MulWithinNat(Abs(a), b, x, y);
    NegatedFactor(a, b);
  }

  /** Main result: for all fixed-point quaternions the rounded product keeps the norm of
      the exact product up to an explicit bound; b bounds the product of the lengths. */
  lemma NormPreserved(p: Quat, q: Quat, b: int)
    requires b > 0 && Norm2(p) * Norm2(q) <= b * b
    ensures Within(ONE * ONE * Norm2(QMult(p, q)) - Norm2(p) * Norm2(q), 12 * ONE * b + 36 * ONE * ONE)
  {
    var h, r := Hamilton(p, q), QMult(p, q);
    FourSquares(p, q);
    SumOfMagnitudes(h, b);
    ProductRounding(p, q);
    ScaledNorm(r);
    NormShift(h, Quat(ONE * r.w, ONE * r.x, ONE * r.y, ONE * r.z), b);
  }

  /** The squares of four numbers, each perturbed by less than 3 units. */
  lemma NormShift(h: Quat, g: Quat, b: int)
    requires Within(g.w - h.w, 3 * ONE) && Within(g.x - h.x, 3 * ONE)
    requires Within(g.y - h.y, 3 * ONE) && Within(g.z - h.z, 3 * ONE)
    requires Abs(h.w) + Abs(h.x) + Abs(h.y) + Abs(h.z) <= 2 * b
    ensures Within(Norm2(g) - Norm2(h), 12 * ONE * b + 36 * ONE * ONE)
  {
    SquareShift(h.w, g.w);
    SquareShift(h.x, g.x);
    SquareShift(h.y, g.y);
    SquareShift(h.z, g.z);
    SumOfShifts(g.w * g.w - h.w * h.w, g.x * g.x - h.x * h.x, g.y * g.y - h.y * h.y, g.z * g.z - h.z * h.z,
                Abs(h.w), Abs(h.x), Abs(h.y), Abs(h.z), b);
  }

  lemma SumOfShifts(dw: int, dx: int, dy: int, dz: int, w: nat, x: nat, y: nat, z: nat, b: int)
    requires Within(dw, 6 * ONE * w + 9 * ONE * ONE) && Within(dx, 6 * ONE * x + 9 * ONE * ONE)
    requires Within(dy, 6 * ONE * y + 9 * ONE * ONE) && Within(dz, 6 * ONE * z + 9 * ONE * ONE)
    requires w + x + y + z <= 2 * b
    ensures Within(dw + dx + dy + dz, 12 * ONE * b + 36 * ONE * ONE)
  {
  }

  /** For quaternions of length at most one the square of the length is off by less than
      12 units of 2^30, plus 36. */
  lemma UnitNormPreserved(p: Quat, q: Quat)
    requires Norm2(p) <= ONE * ONE && Norm2(q) <= ONE * ONE
    ensures Within(ONE * ONE * Norm2(QMult(p, q)) - Norm2(p) * Norm2(q), ONE * ONE * (12 * ONE + 36))
  {
    MulMonotone(Norm2(p), Norm2(q), ONE * ONE);
    MulMonotone(ONE * ONE, Norm2(p), ONE * ONE);
    NormPreserved(p, q, ONE * ONE);
  }

  const X_AXIS := Quat(0, ONE, 0, 0)
  const Y_AXIS := Quat(0, 0, ONE, 0)
  const Z_AXIS := Quat(0, 0, 0, ONE)

  lemma UnitFactors(u: int, o: int)
    requires Q30(u, u) == u && Q30(o, u) == o && Q30(u, o) == o && Q30(o, o) == o == 0
    ensures QMult(Quat(o, u, o, o), Quat(o, o, u, o)) == Quat(o, o, o, u)
    ensures QMult(Quat(o, o, u, o), Quat(o, o, o, u)) == Quat(o, u, o, o)
    ensures QMult(Quat(o, o, o, u), Quat(o, u, o, o)) == Quat(o, o, u, o)
  {
  }

  /** The orientation of the product: x times y is z, and round. */
  lemma AxesMultiply()
    ensures QMult(X_AXIS, Y_AXIS) == Z_AXIS
    ensures QMult(Y_AXIS, Z_AXIS) == X_AXIS
    ensures QMult(Z_AXIS, X_AXIS) == Y_AXIS
  {
    assert Q30(ONE, ONE) == ONE && Q30(0, ONE) == 0 && Q30(ONE, 0) == 0 && Q30(0, 0) == 0;
    UnitFactors(ONE, 0);
  }

  // ---------------------------------------------------------------- the rotation

  lemma ExpandW(w: int, x: int, y: int, z: int, a: int, b: int, c: int)
    ensures (w * a + y * c - z * b) * w == w * w * a + y * w * c - z * w * b
  {
  }

  lemma ExpandX(x: int, y: int, z: int, a: int, b: int, c: int)
    ensures (-x * a - y * b - z * c) * x == -(x * x * a) - x * y * b - x * z * c
  {
  }

  lemma ExpandZ(w: int, x: int, z: int, a: int, b: int, c: int)
    ensures (w * b - x * c + z * a) * z == z * w * b - x * z * c + z * z * a
  {
  }

  lemma ExpandY(w: int, x: int, y: int, a: int, b: int, c: int)
    ensures (w * c + x * b - y * a) * y == y * w * c + x * y * b - y * y * a
  {
  }

  lemma ExpandNorm(w: int, x: int, y: int, z: int, a: int)
    ensures (w * w + x * x + y * y + z * z) * a == w * w * a + x * x * a + y * y * a + z * z * a
  {
  }

  lemma Double(p: int, q: int, a: int)
    ensures 2 * (p + q) * a == 2 * (p * a) + 2 * (q * a)
    ensures 2 * (p - q) * a == 2 * (p * a) - 2 * (q * a)
  {
  }

  /** One row of the matrix without its -1, times (a, b, c), with nothing rounded. */
  function RowNumerator(w: int, x: int, y: int, z: int, a: int, b: int, c: int): int {
    2 * (x * x + w * w) * a + 2 * (x * y - z * w) * b + 2 * (x * z + y * w) * c
  }

  /** The matching component of q v q*, with nothing rounded. */
  function TurnNumerator(w: int, x: int, y: int, z: int, a: int, b: int, c: int): int {
    (w * a + y * c - z * b) * w - (-x * a - y * b - z * c) * x
    - (w * b - x * c + z * a) * z + (w * c + x * b - y * a) * y
  }

  /** The linear combination of monomials behind the next identity. */
  lemma RowLinear(wwa: int, xxa: int, yya: int, zza: int, ywc: int, zwb: int, xyb: int, xzc: int,
                  ew: int, ex: int, ez: int, ey: int)
    requires ew == wwa + ywc - zwb && ex == -xxa - xyb - xzc
    requires ez == zwb - xzc + zza && ey == ywc + xyb - yya
    ensures 2 * xxa + 2 * wwa + (2 * xyb - 2 * zwb) + (2 * xzc + 2 * ywc)
      == ew - ex - ez + ey + (wwa + xxa + yya + zza)
  {
  }

  lemma RowExpansion(w: int, x: int, y: int, z: int, a: int, b: int, c: int)
    ensures 2 * (x * x + w * w) * a + 2 * (x * y - z * w) * b + 2 * (x * z + y * w) * c
      == (w * a + y * c - z * b) * w - (-x * a - y * b - z * c) * x
         - (w * b - x * c + z * a) * z + (w * c + x * b - y * a) * y
         + (w * w + x * x + y * y + z * z) * a
  {
    ExpandW(w, x, y, z, a, b, c);
    ExpandX(x, y, z, a, b, c);
    ExpandY(w, x, y, a, b, c);
    ExpandZ(w, x, z, a, b, c);
    ExpandNorm(w, x, y, z, a);
    Double(x * x, w * w, a);
    Double(x * y, z * w, b);
    Double(x * z, y * w, c);
    RowLinear(w * w * a, x * x * a, y * y * a, z * z * a, y * w * c, z * w * b, x * y * b, x * z * c,
      (w * a + y * c - z * b) * w, (-x * a - y * b - z * c) * x,
      (w * b - x * c + z * a) * z, (w * c + x * b - y * a) * y);
  }

  /** M(q) v = q v q* + (|q|^2 - 1) v, one row at a time; turning the axes gives the
      others. */
  lemma RowIdentity(w: int, x: int, y: int, z: int, a: int, b: int, c: int)
    ensures RowNumerator(w, x, y, z, a, b, c)
      == TurnNumerator(w, x, y, z, a, b, c) + (w * w + x * x + y * y + z * z) * a
  {
    RowExpansion(w, x, y, z, a, b, c);
  }

  /** One floored product of an inexact factor `r` (g / 2^30, up to d units) and v. */
  lemma EntryError(r: int, g: int, d: int, v: int)
    requires Within(ONE * r - g, d * ONE) && Within(v, ONE)
    ensures Within(ONE * ONE * Q30(r, v) - g * v, (d + 1) * (ONE * ONE))
  {
    MulWithin(ONE * r - g, v, d * ONE, ONE);
    assert (ONE * r - g) * v == ONE * (r * v) - g * v;
    assert 0 <= ONE * (r * v - ONE * Q30(r, v)) <= ONE * ONE;
  }

  /** One row of the rotation matrix, floored throughout, times a vector. */
  lemma MatrixRow(w: int, x: int, y: int, z: int, a: int, b: int, c: int)
    requires Within(a, ONE) && Within(b, ONE) && Within(c, ONE)
    ensures Within(
      ONE * ONE * (Q30(Q29(x, x) + Q29(w, w) - ONE, a) + Q30(Q29(x, y) - Q29(z, w), b) + Q30(Q29(x, z) + Q29(y, w), c))
        - (RowNumerator(w, x, y, z, a, b, c) - ONE * ONE * a),
      8 * (ONE * ONE))
  {
    EntryError(Q29(x, x) + Q29(w, w) - ONE, 2 * (x * x + w * w) - ONE * ONE, 2, a);
    EntryError(Q29(x, y) - Q29(z, w), 2 * (x * y - z * w), 1, b);
    EntryError(Q29(x, z) + Q29(y, w), 2 * (x * z + y * w), 2, c);
    assert (2 * (x * x + w * w) - ONE * ONE) * a == 2 * (x * x + w * w) * a - ONE * ONE * a;
  }

  /** t is the rounded product q v, scaled by 2^30 off the exact one by a few units. */
  predicate FirstProduct(tw: int, tx: int, ty: int, tz: int, w: int, x: int, y: int, z: int, a: int, b: int, c: int) {
    && Within(ONE * tw - (-x * a - y * b - z * c), 3 * ONE)
    && Within(ONE * tx - (w * a + y * c - z * b), 2 * ONE)
    && Within(ONE * ty - (w * b - x * c + z * a), 2 * ONE)
    && Within(ONE * tz - (w * c + x * b - y * a), 2 * ONE)
  }

  /** One component of the second product of `inv_q_rotate`. */
  lemma TurnRow(tw: int, tx: int, ty: int, tz: int, w: int, x: int, y: int, z: int, a: int, b: int, c: int)
    requires FirstProduct(tw, tx, ty, tz, w, x, y, z, a, b, c)
    requires Within(w, ONE) && Within(x, ONE) && Within(y, ONE) && Within(z, ONE)
    ensures Within(
      ONE * ONE * (Q30(tw, -x) + Q30(tx, w) + Q30(ty, -z) - Q30(tz, -y)) - TurnNumerator(w, x, y, z, a, b, c),
      13 * (ONE * ONE))
  {
    EntryError(tw, -x * a - y * b - z * c, 3, -x);
    EntryError(tx, w * a + y * c - z * b, 2, w);
    EntryError(ty, w * b - x * c + z * a, 2, -z);
    EntryError(tz, w * c + x * b - y * a, 2, -y);
    NegatedFactor(-x * a - y * b - z * c, x);
    NegatedFactor(w * b - x * c + z * a, z);
    NegatedFactor(w * c + x * b - y * a, y);
  }

  lemma PureProduct(q: Quat, v: Vec3)
    ensures var t := QMult(q, Pure(v));
      && FirstProduct(t.w, t.x, t.y, t.z, q.w, q.x, q.y, q.z, v.x, v.y, v.z)
      && FirstProduct(t.w, t.y, t.z, t.x, q.w, q.y, q.z, q.x, v.y, v.z, v.x)
      && FirstProduct(t.w, t.z, t.x, t.y, q.w, q.z, q.x, q.y, v.z, v.x, v.y)
  {
    ZeroTimes(q.w);
    ZeroTimes(q.x);
    ZeroTimes(q.y);
    ZeroTimes(q.z);
  }

  predicate Bounded(q: Quat, v: Vec3) {
    && Within(q.w, ONE) && Within(q.x, ONE) && Within(q.y, ONE) && Within(q.z, ONE)
    && Within(v.x, ONE) && Within(v.y, ONE) && Within(v.z, ONE)
  }

  /** The matrix result m and the rotation result r differ by (|q|^2 - 1) v up to 21 units. */
  predicate Agree(m: int, r: int, norm2: int, v: int) {
    Within(ONE * ONE * (m - r) - (norm2 - ONE * ONE) * v, 21 * (ONE * ONE))
  }

  lemma Combine(m: int, r: int, row: int, turn: int, norm2: int, v: int)
    requires Within(ONE * ONE * m - (row - ONE * ONE * v), 8 * (ONE * ONE))
    requires Within(ONE * ONE * r - turn, 13 * (ONE * ONE))
    requires row == turn + norm2 * v
    ensures Agree(m, r, norm2, v)
  {
    assert (norm2 - ONE * ONE) * v == norm2 * v - ONE * ONE * v;
  }

  lemma AgreeRow(tw: int, tx: int, ty: int, tz: int, w: int, x: int, y: int, z: int, a: int, b: int, c: int)
    requires FirstProduct(tw, tx, ty, tz, w, x, y, z, a, b, c)
    requires Bounded(Quat(w, x, y, z), Vec3(a, b, c))
    ensures Agree(
      Q30(Q29(x, x) + Q29(w, w) - ONE, a) + Q30(Q29(x, y) - Q29(z, w), b) + Q30(Q29(x, z) + Q29(y, w), c),
      Q30(tw, -x) + Q30(tx, w) + Q30(ty, -z) - Q30(tz, -y),
      w * w + x * x + y * y + z * z, a)
  {
    MatrixRow(w, x, y, z, a, b, c);
    TurnRow(tw, tx, ty, tz, w, x, y, z, a, b, c);
    RowIdentity(w, x, y, z, a, b, c);
    Combine(
      Q30(Q29(x, x) + Q29(w, w) - ONE, a) + Q30(Q29(x, y) - Q29(z, w), b) + Q30(Q29(x, z) + Q29(y, w), c),
      Q30(tw, -x) + Q30(tx, w) + Q30(ty, -z) - Q30(tz, -y),
      RowNumerator(w, x, y, z, a, b, c), TurnNumerator(w, x, y, z, a, b, c),
      w * w + x * x + y * y + z * z, a);
  }

  lemma Commute(a: int, b: int)
    ensures Q29(a, b) == Q29(b, a)
  {
    assert a * b == b * a;
  }

  lemma AgreeX(q: Quat, v: Vec3)
    requires Bounded(q, v)
    ensures Agree(Dot(QRotation(q).row0, v), QRotate(q, v).x, Norm2(q), v.x)
  {
    var t := QMult(q, Pure(v));
    PureProduct(q, v);
    AgreeRow(t.w, t.x, t.y, t.z, q.w, q.x, q.y, q.z, v.x, v.y, v.z);
  }

  lemma AgreeY(q: Quat, v: Vec3)
    requires Bounded(q, v)
    ensures Agree(Dot(QRotation(q).row1, v), QRotate(q, v).y, Norm2(q), v.y)
  {
    var t := QMult(q, Pure(v));
    PureProduct(q, v);
    Commute(q.x, q.y);
    AgreeRow(t.w, t.y, t.z, t.x, q.w, q.y, q.z, q.x, v.y, v.z, v.x);
  }

  lemma AgreeZ(q: Quat, v: Vec3)
    requires Bounded(q, v)
    ensures Agree(Dot(QRotation(q).row2, v), QRotate(q, v).z, Norm2(q), v.z)
  {
    var t := QMult(q, Pure(v));
    PureProduct(q, v);
    Commute(q.x, q.z);
    Commute(q.y, q.z);
    AgreeRow(t.w, t.z, t.x, t.y, q.w, q.z, q.x, q.y, v.z, v.x, v.y);
  }

  /** Main result: for all q and v with components of magnitude at most one, multiplying
      by the rotation matrix and rotating by the quaternion differ, in every component, by
      (|q|^2 - 1) v up to 21 units of the last place. */
  lemma RotationAgreement(q: Quat, v: Vec3)
    requires Bounded(q, v)
    ensures var m, r, n := MatVec(QRotation(q), v), QRotate(q, v), Norm2(q);
      Agree(m.x, r.x, n, v.x) && Agree(m.y, r.y, n, v.y) && Agree(m.z, r.z, n, v.z)
  {
    AgreeX(q, v);
    AgreeY(q, v);
    AgreeZ(q, v);
  }

  lemma AgreeNearUnit(m: int, r: int, norm2: int, v: int, k: nat)
    requires Agree(m, r, norm2, v) && Within(v, ONE)
    requires Within(norm2 - ONE * ONE, k * ONE)
    ensures Within(m - r, 21 + k)
  {
    MulWithin(norm2 - ONE * ONE, v, k * ONE, ONE);
  }

  /** A quaternion whose squared length is within k units of one: the two agree to 21 + k
      units. A product of two unit quaternions qualifies with k = 13. */
  lemma NearUnitRotationAgreement(q: Quat, v: Vec3, k: nat)
    requires Bounded(q, v) && Within(Norm2(q) - ONE * ONE, k * ONE)
    ensures var m, r := MatVec(QRotation(q), v), QRotate(q, v);
      Within(m.x - r.x, 21 + k) && Within(m.y - r.y, 21 + k) && Within(m.z - r.z, 21 + k)
  {
    RotationAgreement(q, v);
    var m, r := MatVec(QRotation(q), v), QRotate(q, v);
    AgreeNearUnit(m.x, r.x, Norm2(q), v.x, k);
    AgreeNearUnit(m.y, r.y, Norm2(q), v.y, k);
    AgreeNearUnit(m.z, r.z, Norm2(q), v.z, k);
  }

  lemma NearUnitFactors(m: int, n: int, j: nat, k: nat)
    requires j <= 1000 && k <= 1000
    requires Within(m - ONE * ONE, j * ONE) && Within(n - ONE * ONE, k * ONE)
    ensures Within(m * n - ONE * ONE * (ONE * ONE), (j + k) * (ONE * ONE * ONE) + 1000000 * (ONE * ONE))
    ensures m * n <= (ONE * ONE + 1001 * ONE) * (ONE * ONE + 1001 * ONE)
  {
    MulWithin(m - ONE * ONE, n - ONE * ONE, j * ONE, k * ONE);
    MulMonotone(k, j, 1000);
    ProductOfSums(m - ONE * ONE, n - ONE * ONE);
    assert (j * ONE) * (k * ONE) == ONE * ONE * (k * j);
  }

  lemma ProductOfSums(x: int, y: int)
    ensures (ONE * ONE + x) * (ONE * ONE + y) == ONE * ONE * (ONE * ONE) + ONE * ONE * (x + y) + x * y
  {
  }

  lemma DivideOut(r: int, mn: int, j: nat, k: nat)
    requires Within(mn - ONE * ONE * (ONE * ONE), (j + k) * (ONE * ONE * ONE) + 1000000 * (ONE * ONE))
    requires Within(ONE * ONE * r - mn, 12 * ONE * (ONE * ONE + 1001 * ONE) + 36 * ONE * ONE)
    ensures Within(r - ONE * ONE, (13 + j + k) * ONE)
  {
  }

  /** Products of near-unit quaternions stay near unit length: 13 units more off than the two
      factors together. */
  lemma UnitProductNearUnit(p: Quat, q: Quat, j: nat, k: nat)
    requires j <= 1000 && k <= 1000
    requires Within(Norm2(p) - ONE * ONE, j * ONE) && Within(Norm2(q) - ONE * ONE, k * ONE)
    ensures Within(Norm2(QMult(p, q)) - ONE * ONE, (13 + j + k) * ONE)
  {
    NearUnitFactors(Norm2(p), Norm2(q), j, k);
    NormPreserved(p, q, ONE * ONE + 1001 * ONE);
    DivideOut(Norm2(QMult(p, q)), Norm2(p) * Norm2(q), j, k);
  }
}
