/** Matrix times vector through 32-bit words, and its agreement with the rotation. */
module RotationWords {
  import opened Int32
  import opened Quaternion
  import opened Quaternion32

  /** What the three wrapping sums of `inv_matrix_vector_mult` hold. */
  function MatVec32(m: Mat3, v: Vec3): Vec3 {
    WrapVec(MatVec(m, v))
  }

  /** Three words added up. */
  lemma ThreeWords(p: int, q: int, r: int)
    ensures Accumulate(Accumulate(Wrap32(p), true, Wrap32(q)), true, Wrap32(r)) == Wrap32(p + q + r)
  {
    AccumulateWrapped(p, true, q);
    AccumulateWrapped(p + q, true, r);
  }

  /** One row: two sums of words. */
  method RowTimes(row: Vec3, v: Vec3) returns (r: Long)
    requires FitsVec(row) && FitsVec(v)
    ensures r == Wrap32(Dot(row, v))
  {
    var p := InvQ30Mult(row.x, v.x);
    var q := InvQ30Mult(row.y, v.y);
    var s := InvQ30Mult(row.z, v.z);
    ThreeWords(Q30(row.x, v.x), Q30(row.y, v.y), Q30(row.z, v.z));
    r := Accumulate(Accumulate(p, true, q), true, s);
  }

  /** `inv_matrix_vector_mult`. The output is written while the input is still read, so it must
      be another array. */
  method InvMatrixVectorMult(m: array<Long>, x: array<Long>, y: array<Long>)
    requires m.Length == 9 && x.Length == y.Length == 3 && y != x && y != m
    modifies y
    ensures VecAt(y) == MatVec32(MatAt(m), VecAt(x))
  {
    y[0] := RowTimes(Vec3(m[0], m[1], m[2]), Vec3(x[0], x[1], x[2]));
    y[1] := RowTimes(Vec3(m[3], m[4], m[5]), Vec3(x[0], x[1], x[2]));
    y[2] := RowTimes(Vec3(m[6], m[7], m[8]), Vec3(x[0], x[1], x[2]));
  }

  // ---------------------------------------------------------------- the sums fit

  /** The first row of the rotation itself, n times a unit vector. */
  function Turn0(w: int, x: int, y: int, z: int): int {
    w * w + x * x - y * y - z * z
  }

  function Turn1(w: int, x: int, y: int, z: int): int {
    2 * (x * y - z * w)
  }

  function Turn2(w: int, x: int, y: int, z: int): int {
    2 * (x * z + y * w)
  }

  function Four(w: int, x: int, y: int, z: int): int {
    w * w + x * x + y * y + z * z
  }

  lemma Expand(x: int, y: int, z: int, w: int)
    ensures (x * y - z * w) * (x * y - z * w) + (x * z + y * w) * (x * z + y * w)
      == (w * w + x * x) * (y * y + z * z)
  {
    assert (x * y - z * w) * (x * y - z * w) == x * x * (y * y) + z * z * (w * w) - 2 * (x * y * (z * w));
    assert (x * z + y * w) * (x * z + y * w) == x * x * (z * z) + y * y * (w * w) + 2 * (x * z * (y * w));
    assert x * y * (z * w) == x * z * (y * w);
  }

  lemma DifferenceSquared(a: int, b: int)
    ensures (a - b) * (a - b) + 4 * (a * b) == (a + b) * (a + b)
  {
  }

  lemma TurnLength(w: int, x: int, y: int, z: int)
    ensures var r0, r1, r2, n := Turn0(w, x, y, z), Turn1(w, x, y, z), Turn2(w, x, y, z), Four(w, x, y, z);
      r0 * r0 + r1 * r1 + r2 * r2 == n * n
  {
    Expand(x, y, z, w);
    DifferenceSquared(w * w + x * x, y * y + z * z);
  }

  lemma SquareOfSum(p: int, q: int, r: int)
    ensures (p + q + r) * (p + q + r) <= 3 * (p * p + q * q + r * r)
  {
    ProductBySquares(p, q);
    ProductBySquares(p, r);
    ProductBySquares(q, r);
    assert (p + q + r) * (p + q + r) == p * p + q * q + r * r + 2 * (p * q) + 2 * (p * r) + 2 * (q * r);
  }

  lemma AbsSquare(x: int)
    ensures Abs(x) * Abs(x) == x * x
  {
  }

  /** The magnitudes of a vector of length n sum to less than 7/4 n. */
  lemma SumOfThree(r0: int, r1: int, r2: int, n: int)
    requires n >= 0 && r0 * r0 + r1 * r1 + r2 * r2 == n * n
    ensures 4 * (Abs(r0) + Abs(r1) + Abs(r2)) <= 7 * n
  {
    var s := Abs(r0) + Abs(r1) + Abs(r2);
    AbsSquare(r0);
    AbsSquare(r1);
    AbsSquare(r2);
    SquareOfSum(Abs(r0), Abs(r1), Abs(r2));
    Scaled(s, n);
    RootBound(4 * s, 7 * n);
  }

  lemma Scaled(s: int, n: int)
    requires s * s <= 3 * (n * n)
    ensures 4 * s * (4 * s) <= 7 * n * (7 * n)
  {
    assert 4 * s * (4 * s) == 16 * (s * s) && 7 * n * (7 * n) == 49 * (n * n);
    ProductBySquares(n, n);
  }

  /** The exact row times a vector: the rotation and (n - 1) times the first component. */
  lemma RowSplits(w: int, x: int, y: int, z: int, a: int, b: int, c: int)
    ensures RowNumerator(w, x, y, z, a, b, c)
      == Turn0(w, x, y, z) * a + Turn1(w, x, y, z) * b + Turn2(w, x, y, z) * c + Four(w, x, y, z) * a
  {
    assert 2 * (x * x + w * w) == Turn0(w, x, y, z) + Four(w, x, y, z);
    Distributes(Turn0(w, x, y, z), Four(w, x, y, z), a);
  }

  lemma Distributes(p: int, q: int, a: int)
    ensures (p + q) * a == p * a + q * a
  {
  }

  lemma RowBounded(r0: int, r1: int, r2: int, n: int, a: int, b: int, c: int, row: int)
    requires 0 <= n <= 17 * 0x100_0000_0000_0000
    requires 4 * (Abs(r0) + Abs(r1) + Abs(r2)) <= 7 * n
    requires Within(a, ONE) && Within(b, ONE) && Within(c, ONE)
    requires row == r0 * a + r1 * b + r2 * c + n * a
    ensures Within(16 * (row - ONE * ONE * a), 31 * (ONE * ONE * ONE))
  {
    MulWithin(r0, a, Abs(r0), ONE);
    MulWithin(r1, b, Abs(r1), ONE);
    MulWithin(r2, c, Abs(r2), ONE);
    MulWithin(n - ONE * ONE, a, Abs(n - ONE * ONE), ONE);
    Distributes(n, -ONE * ONE, a);
  }

  /** A row of the rotation matrix times a vector fits in a word. */
  lemma RowFits(w: int, x: int, y: int, z: int, a: int, b: int, c: int)
    requires Four(w, x, y, z) <= 17 * 0x100_0000_0000_0000
    requires Within(a, ONE) && Within(b, ONE) && Within(c, ONE)
    ensures Fits32(Q30(Q29(x, x) + Q29(w, w) - ONE, a) + Q30(Q29(x, y) - Q29(z, w), b)
                   + Q30(Q29(x, z) + Q29(y, w), c))
  {
    var r0, r1, r2, n := Turn0(w, x, y, z), Turn1(w, x, y, z), Turn2(w, x, y, z), Four(w, x, y, z);
    Squares(Quat(w, x, y, z));
    TurnLength(w, x, y, z);
    SumOfThree(r0, r1, r2, n);
    RowSplits(w, x, y, z, a, b, c);
    RowBounded(r0, r1, r2, n, a, b, c, RowNumerator(w, x, y, z, a, b, c));
    MatrixRow(w, x, y, z, a, b, c);
    RoundedFits(
      Q30(Q29(x, x) + Q29(w, w) - ONE, a) + Q30(Q29(x, y) - Q29(z, w), b) + Q30(Q29(x, z) + Q29(y, w), c),
      RowNumerator(w, x, y, z, a, b, c) - ONE * ONE * a);
  }

  lemma RoundedFits(m: int, exact: int)
    requires Within(ONE * ONE * m - exact, 8 * (ONE * ONE))
    requires Within(16 * exact, 31 * (ONE * ONE * ONE))
    ensures Fits32(m)
  {
  }

  /** For a quaternion of squared length at most 17/16 and a vector with components of magnitude
      at most one, the product through words is the exact one. */
  lemma MatVecExact32(q: Quat, v: Vec3)
    requires Norm2(q) <= 17 * 0x100_0000_0000_0000
    requires Within(v.x, ONE) && Within(v.y, ONE) && Within(v.z, ONE)
    ensures MatVec32(QRotation(q), v) == MatVec(QRotation(q), v)
  {
    RowFits(q.w, q.x, q.y, q.z, v.x, v.y, v.z);
    RowFits(q.w, q.y, q.z, q.x, v.y, v.z, v.x);
    RowFits(q.w, q.z, q.x, q.y, v.z, v.x, v.y);
    Commute(q.x, q.y);
    Commute(q.x, q.z);
    Commute(q.y, q.z);
    WrapVecExact(MatVec(QRotation(q), v));
  }

  // ---------------------------------------------------------------- agreement

  /** Main result: what the code computes in words agrees. For squared length at most 17/16 and
      components of magnitude at most one, multiplying by the 32-bit rotation matrix and rotating
      by the quaternion differ, in every component, by (|q|^2 - 1) v up to 21 units. */
  lemma WordsAgree(q: Quat, v: Vec3)
    requires Bounded(q, v) && Norm2(q) <= 17 * 0x100_0000_0000_0000
    ensures var m, r, n := MatVec32(WrapMat(QRotation(q)), v), Rotate32(q, v), Norm2(q);
      Agree(m.x, r.x, n, v.x) && Agree(m.y, r.y, n, v.y) && Agree(m.z, r.z, n, v.z)
  {
    RotationExact32(q);
    MatVecExact32(q, v);
    RotateExact32(q, v);
    RotationAgreement(q, v);
  }

  /** Within k units of squared length one the words agree to 21 + k units. */
  lemma NearUnitWordsAgree(q: Quat, v: Vec3, k: nat)
    requires Bounded(q, v) && k <= 0x400_0000 && Within(Norm2(q) - ONE * ONE, k * ONE)
    ensures var m, r := MatVec32(WrapMat(QRotation(q)), v), Rotate32(q, v);
      Within(m.x - r.x, 21 + k) && Within(m.y - r.y, 21 + k) && Within(m.z - r.z, 21 + k)
  {
    RotationExact32(q);
    MatVecExact32(q, v);
    RotateExact32(q, v);
    NearUnitRotationAgreement(q, v, k);
  }
}
