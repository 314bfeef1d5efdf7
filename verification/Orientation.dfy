/** Mounting orientations of ml_math_func.c: a signed permutation matrix packed into nine
    bits, and the conversions between chip and body frame that unpack it. */
module Orientation {
  import opened Int32

  // ---------------------------------------------------------------- packing

  /** Three bits for one row: the column of its first non-zero entry and, as bit 2, the
      entry's sign; 7 for a zero row. */
  function RowToScale(a: int, b: int, c: int): (r: bv16)
    ensures r < 8
  {
    if a > 0 then 0 else if a < 0 then 4
    else if b > 0 then 1 else if b < 0 then 5
    else if c > 0 then 2 else if c < 0 then 6
    else 7
  }

  /** `inv_orientation_matrix_to_scalar`. */
  function MatrixToScalar(mtx: seq<int>): bv16
    requires |mtx| == 9
  {
    RowToScale(mtx[0], mtx[1], mtx[2])
    | (RowToScale(mtx[3], mtx[4], mtx[5]) << 3)
    | (RowToScale(mtx[6], mtx[7], mtx[8]) << 6)
  }

  /** The three bits of row i. */
  function RowCode(orientation: bv16, i: nat): bv16
    requires i < 3
  {
    (if i == 0 then orientation else if i == 1 then orientation >> 3 else orientation >> 6) & 7
  }

  /** Packed rows do not disturb each other. */
  lemma Unpack(r0: bv16, r1: bv16, r2: bv16)
    requires r0 < 8 && r1 < 8 && r2 < 8
    ensures var s := r0 | (r1 << 3) | (r2 << 6);
      && s & 7 == r0 && (s >> 3) & 7 == r1 && (s >> 6) & 7 == r2
  {
  }

  // ---------------------------------------------------------------- unpacking

  /** `(orientation >> 3 i) & 0x03`. */
  function Column(orientation: bv16, i: nat): nat
    requires i < 3
  {
    ((if i == 0 then orientation else if i == 1 then orientation >> 3 else orientation >> 6) & 3) as nat
  }

  /** `SIGNSET(orientation & 0x004)` and its likes for the other rows. */
  function Sign(orientation: bv16, i: nat): int
    requires i < 3
  {
    if orientation & (if i == 0 then 0x004 else if i == 1 then 0x020 else 0x100) != 0 then -1 else 1
  }

  /** Column 3 would be read or written outside the vector. */
  predicate InBounds(orientation: bv16) {
    Column(orientation, 0) < 3 && Column(orientation, 1) < 3 && Column(orientation, 2) < 3
  }

  function ToBody(orientation: bv16, v: seq<int>): seq<int>
    requires InBounds(orientation) && |v| == 3
  {
    [v[Column(orientation, 0)] * Sign(orientation, 0),
     v[Column(orientation, 1)] * Sign(orientation, 1),
     v[Column(orientation, 2)] * Sign(orientation, 2)]
  }

  /** What `output`, holding `was`, holds afterwards. */
  function ToChip(orientation: bv16, v: seq<int>, was: seq<int>): seq<int>
    requires InBounds(orientation) && |v| == |was| == 3
  {
    was[Column(orientation, 0) := v[0] * Sign(orientation, 0)]
       [Column(orientation, 1) := v[1] * Sign(orientation, 1)]
       [Column(orientation, 2) := v[2] * Sign(orientation, 2)]
  }

  /** A component of a 32-bit vector times the row's sign: only -2^31 does not negate. */
  function Signed32(orientation: bv16, i: nat, x: Long): Long
    requires i < 3
  {
    Wrap32(x * Sign(orientation, i))
  }

  function ToBody32(orientation: bv16, v: seq<Long>): seq<Long>
    requires InBounds(orientation) && |v| == 3
  {
    [Signed32(orientation, 0, v[Column(orientation, 0)]),
     Signed32(orientation, 1, v[Column(orientation, 1)]),
     Signed32(orientation, 2, v[Column(orientation, 2)])]
  }

  function ToChip32(orientation: bv16, v: seq<Long>, was: seq<Long>): seq<Long>
    requires InBounds(orientation) && |v| == |was| == 3
  {
    was[Column(orientation, 0) := Signed32(orientation, 0, v[0])]
       [Column(orientation, 1) := Signed32(orientation, 1, v[1])]
       [Column(orientation, 2) := Signed32(orientation, 2, v[2])]
  }

  /** `inv_convert_to_body`. */
  method InvConvertToBody(orientation: bv16, input: array<Long>, output: array<Long>)
    requires InBounds(orientation) && input.Length == output.Length == 3 && input != output
    modifies output
    ensures output[..] == ToBody32(orientation, input[..])
  {
    output[0] := Signed32(orientation, 0, input[Column(orientation, 0)]);
    output[1] := Signed32(orientation, 1, input[Column(orientation, 1)]);
    output[2] := Signed32(orientation, 2, input[Column(orientation, 2)]);
  }

  /** `inv_convert_to_chip`. */
  method InvConvertToChip(orientation: bv16, input: array<Long>, output: array<Long>)
    requires InBounds(orientation) && input.Length == output.Length == 3 && input != output
    modifies output
    ensures output[..] == ToChip32(orientation, input[..], old(output[..]))
  {
    output[Column(orientation, 0)] := Signed32(orientation, 0, input[0]);
    output[Column(orientation, 1)] := Signed32(orientation, 1, input[1]);
    output[Column(orientation, 2)] := Signed32(orientation, 2, input[2]);
  }

  lemma SignedExact(o: bv16, i: nat, x: Long)
    requires i < 3
    ensures Signed32(o, i, x) == x * Sign(o, i) <==> !(x == -0x8000_0000 && Sign(o, i) == -1)
    ensures Signed32(o, i, Signed32(o, i, x)) == x
  {
    WrapExact(x * Sign(o, i));
  }

  /** The words hold the exact result if and only if no component that is negated is -2^31. */
  lemma BodyExactIff(o: bv16, v: seq<Long>)
    requires InBounds(o) && |v| == 3
    ensures ToBody32(o, v) == ToBody(o, v)
      <==> forall i: nat :: i < 3 ==> !(v[Column(o, i)] == -0x8000_0000 && Sign(o, i) == -1)
  {
    SignedExact(o, 0, v[Column(o, 0)]);
    SignedExact(o, 1, v[Column(o, 1)]);
    SignedExact(o, 2, v[Column(o, 2)]);
    assert ToBody32(o, v) == ToBody(o, v)
      <==> ToBody32(o, v)[0] == ToBody(o, v)[0] && ToBody32(o, v)[1] == ToBody(o, v)[1]
           && ToBody32(o, v)[2] == ToBody(o, v)[2];
  }

  // ---------------------------------------------------------------- signed permutations

  /** The row has one non-zero entry, s = +1 or -1, in column c. */
  predicate UnitRow(row: seq<int>, c: nat, s: int)
    requires |row| == 3
  {
    c < 3 && (s == 1 || s == -1) && row == [0, 0, 0][c := s]
  }

  /** Row i of the matrix has its only non-zero entry, +1 or -1, in column cols[i], and no
      two rows share a column. */
  predicate SignedPermutation(mtx: seq<int>, cols: seq<nat>, signs: seq<int>) {
    && |mtx| == 9 && |cols| == |signs| == 3
    && UnitRow(mtx[0..3], cols[0], signs[0])
    && UnitRow(mtx[3..6], cols[1], signs[1])
    && UnitRow(mtx[6..9], cols[2], signs[2])
    && cols[0] != cols[1] && cols[0] != cols[2] && cols[1] != cols[2]
  }

  function MatrixTimes(mtx: seq<int>, v: seq<int>): seq<int>
    requires |mtx| == 9 && |v| == 3
  {
    [mtx[0] * v[0] + mtx[1] * v[1] + mtx[2] * v[2],
     mtx[3] * v[0] + mtx[4] * v[1] + mtx[5] * v[2],
     mtx[6] * v[0] + mtx[7] * v[1] + mtx[8] * v[2]]
  }

  lemma ScaleOfUnitRow(row: seq<int>, c: nat, s: int)
    requires |row| == 3 && UnitRow(row, c, s)
    ensures RowToScale(row[0], row[1], row[2])
      == (if c == 0 then 0 else if c == 1 then 1 else 2) | (if s < 0 then 4 else 0)
  {
  }

  /** The code of any row: 7 if and only if it is all zero, and otherwise the column of its first
      non-zero entry with that entry's sign. */
  lemma ScaleMeaning(row: seq<int>)
    requires |row| == 3
    ensures var code := RowToScale(row[0], row[1], row[2]);
      && (code == 7 <==> row == [0, 0, 0])
      && (code != 7 ==> (code & 3) as nat < 3 && FirstEntry(row, (code & 3) as nat, code & 4 != 0))
  {
    SmallColumns();
  }

  /** The first non-zero entry is in column c and negative or not. */
  predicate FirstEntry(row: seq<int>, c: nat, negative: bool)
    requires |row| == 3 && c < 3
  {
    row[c] != 0 && (row[c] < 0) == negative && forall j: nat :: j < c ==> row[j] == 0
  }

  lemma RowCodes(mtx: seq<int>)
    requires |mtx| == 9
    ensures RowCode(MatrixToScalar(mtx), 0) == RowToScale(mtx[0], mtx[1], mtx[2])
    ensures RowCode(MatrixToScalar(mtx), 1) == RowToScale(mtx[3], mtx[4], mtx[5])
    ensures RowCode(MatrixToScalar(mtx), 2) == RowToScale(mtx[6], mtx[7], mtx[8])
  {
    Unpack(RowToScale(mtx[0], mtx[1], mtx[2]), RowToScale(mtx[3], mtx[4], mtx[5]), RowToScale(mtx[6], mtx[7], mtx[8]));
  }

  lemma CodeBits(o: bv16)
    ensures o & 3 == (o & 7) & 3 && (o >> 3) & 3 == ((o >> 3) & 7) & 3 && (o >> 6) & 3 == ((o >> 6) & 7) & 3
    ensures (o & 0x004 != 0) == ((o & 7) & 4 != 0)
    ensures (o & 0x020 != 0) == (((o >> 3) & 7) & 4 != 0)
    ensures (o & 0x100 != 0) == (((o >> 6) & 7) & 4 != 0)
  {
  }

  lemma SmallColumns()
    ensures (0 as bv16) as nat == 0 && (1 as bv16) as nat == 1 && (2 as bv16) as nat == 2 && (3 as bv16) as nat == 3
  {
  }

  /** A row's column and sign, read off its three bits. */
  lemma ColumnAndSign(o: bv16, i: nat)
    requires i < 3
    ensures Column(o, i) == (RowCode(o, i) & 3) as nat
    ensures Sign(o, i) == if RowCode(o, i) & 4 != 0 then -1 else 1
  {
    CodeBits(o);
  }

  lemma UnitCode(c: nat, s: int, code: bv16)
    requires c < 3
    requires code == (if c == 0 then 0 else if c == 1 then 1 else 2) | (if s < 0 then 4 else 0)
    ensures (code & 3) as nat == c && (code & 4 != 0) == (s < 0)
  {
    SmallColumns();
  }

  /** Packing keeps column and sign of every row. */
  lemma PackingKeeps(mtx: seq<int>, cols: seq<nat>, signs: seq<int>, i: nat)
    requires SignedPermutation(mtx, cols, signs) && i < 3
    ensures Column(MatrixToScalar(mtx), i) == cols[i]
    ensures Sign(MatrixToScalar(mtx), i) == signs[i]
  {
    RowCodes(mtx);
    var row := mtx[3 * i..3 * i + 3];
    ScaleOfUnitRow(row, cols[i], signs[i]);
    ColumnAndSign(MatrixToScalar(mtx), i);
    UnitCode(cols[i], signs[i], RowCode(MatrixToScalar(mtx), i));
  }

  lemma UnitRowTimes(row: seq<int>, c: nat, s: int, v: seq<int>)
    requires |row| == |v| == 3 && UnitRow(row, c, s)
    ensures row[0] * v[0] + row[1] * v[1] + row[2] * v[2] == v[c] * s
  {
  }

  /** Main result: for every signed permutation matrix, converting with its packed form is
      multiplying by the matrix. */
  lemma ConvertIsMultiply(mtx: seq<int>, cols: seq<nat>, signs: seq<int>, v: seq<int>)
    requires SignedPermutation(mtx, cols, signs) && |v| == 3
    ensures InBounds(MatrixToScalar(mtx))
    ensures ToBody(MatrixToScalar(mtx), v) == MatrixTimes(mtx, v)
  {
    PackingKeeps(mtx, cols, signs, 0);
    PackingKeeps(mtx, cols, signs, 1);
    PackingKeeps(mtx, cols, signs, 2);
    UnitRowTimes(mtx[0..3], cols[0], signs[0], v);
    UnitRowTimes(mtx[3..6], cols[1], signs[1], v);
    UnitRowTimes(mtx[6..9], cols[2], signs[2], v);
  }

  lemma SignTwice(o: bv16, i: nat, x: int)
    requires i < 3
    ensures x * Sign(o, i) * Sign(o, i) == x
  {
  }

  /** No two rows share a column. */
  predicate Permutes(o: bv16) {
    && InBounds(o)
    && Column(o, 0) != Column(o, 1) && Column(o, 0) != Column(o, 2) && Column(o, 1) != Column(o, 2)
  }

  /** The two conversions undo each other, in either order, for every orientation whose
      rows use different columns; the old content of the output does not matter. */
  lemma ConversionsInverse(o: bv16, v: seq<int>, was: seq<int>)
    requires Permutes(o) && |v| == |was| == 3
    ensures ToChip(o, ToBody(o, v), was) == v
    ensures ToBody(o, ToChip(o, v, was)) == v
  {
    SignTwice(o, 0, v[Column(o, 0)]);
    SignTwice(o, 1, v[Column(o, 1)]);
    SignTwice(o, 2, v[Column(o, 2)]);
    SignTwice(o, 0, v[0]);
    SignTwice(o, 1, v[1]);
    SignTwice(o, 2, v[2]);
  }

  /** Writing to three different places of three. */
  lemma Scattered(was: seq<Long>, c0: nat, c1: nat, c2: nat, x: Long, y: Long, z: Long)
    requires |was| == 3 && c0 < 3 && c1 < 3 && c2 < 3 && c0 != c1 && c0 != c2 && c1 != c2
    ensures var s := was[c0 := x][c1 := y][c2 := z]; s[c0] == x && s[c1] == y && s[c2] == z
    ensures forall v: seq<Long> :: |v| == 3 && v[c0] == x && v[c1] == y && v[c2] == z ==>
      was[c0 := x][c1 := y][c2 := z] == v
  {
  }

  lemma BodyThenChip(o: bv16, v: seq<Long>, was: seq<Long>)
    requires Permutes(o) && |v| == |was| == 3
    ensures ToChip32(o, ToBody32(o, v), was) == v
  {
    var c0, c1, c2 := Column(o, 0), Column(o, 1), Column(o, 2);
    SignedExact(o, 0, v[c0]);
    SignedExact(o, 1, v[c1]);
    SignedExact(o, 2, v[c2]);
    Scattered(was, c0, c1, c2, v[c0], v[c1], v[c2]);
  }

  lemma ChipThenBody(o: bv16, v: seq<Long>, was: seq<Long>)
    requires Permutes(o) && |v| == |was| == 3
    ensures ToBody32(o, ToChip32(o, v, was)) == v
  {
    SignedExact(o, 0, v[0]);
    SignedExact(o, 1, v[1]);
    SignedExact(o, 2, v[2]);
    Scattered(was, Column(o, 0), Column(o, 1), Column(o, 2),
              Signed32(o, 0, v[0]), Signed32(o, 1, v[1]), Signed32(o, 2, v[2]));
  }

  /** The same through 32-bit words, -2^31 included: what wraps on the way there wraps back. */
  lemma WordConversionsInverse(o: bv16, v: seq<Long>, was: seq<Long>)
    requires Permutes(o) && |v| == |was| == 3
    ensures ToChip32(o, ToBody32(o, v), was) == v
    ensures ToBody32(o, ToChip32(o, v, was)) == v
  {
    BodyThenChip(o, v, was);
    ChipThenBody(o, v, was);
  }

  lemma SignedPermutationPermutes(mtx: seq<int>, cols: seq<nat>, signs: seq<int>)
    requires SignedPermutation(mtx, cols, signs)
    ensures Permutes(MatrixToScalar(mtx))
  {
    PackingKeeps(mtx, cols, signs, 0);
    PackingKeeps(mtx, cols, signs, 1);
    PackingKeeps(mtx, cols, signs, 2);
  }

  lemma SharedColumnLoses(o: bv16)
    requires InBounds(o) && !Permutes(o)
    ensures exists v: seq<int> :: |v| == 3 && ToBody(o, ToChip(o, v, [0, 0, 0])) != v
  {
    var v := if Column(o, 1) == Column(o, 2) then [0, 1, 0] else [1, 0, 0];
    assert ToBody(o, ToChip(o, v, [0, 0, 0])) != v;
  }

  /** The condition is exact: to chip frame and back is the identity on all vectors if and
      only if no two rows share a column. */
  lemma RoundTripIffPermutes(o: bv16)
    requires InBounds(o)
    ensures Permutes(o) <==> forall v: seq<int> :: |v| == 3 ==> ToBody(o, ToChip(o, v, [0, 0, 0])) == v
  {
    if Permutes(o) {
      forall v: seq<int> | |v| == 3
        ensures ToBody(o, ToChip(o, v, [0, 0, 0])) == v
      {
        ConversionsInverse(o, v, [0, 0, 0]);
      }
    } else {
      SharedColumnLoses(o);
    }
  }
}
