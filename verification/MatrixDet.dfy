/** `inv_matrix_detd` and `inv_matrix_det_incd` of ml_math_func.c: a determinant over minors
    copied between 6 x 6 scratch arrays, with the size passed through a shared counter. */
module MatrixDet {
  import opened Determinant

  /** The `int *n` both routines read and write. */
  class Size {
    var value: int

    constructor (n: int)
      ensures value == n
    {
      value := n;
    }
  }

  /** The matrix a 36-element array stores with row stride 6. */
  function At(a: seq<real>): Matrix {
    (i: nat, j: nat) => if 6 * i + j < |a| then a[6 * i + j] else 0.0
  }

  function Cols(n: nat): (r: seq<nat>)
    ensures |r| == n && forall i: nat :: i < n ==> r[i] == i
  {
    seq(n, i => i)
  }

  /** The k-th index other than c. */
  function Skip(k: nat, c: nat): nat {
    if k < c then k else k + 1
  }

  /** The first `rows` rows and n - 1 columns of b hold the minor of a without row x and
      column y. */
  ghost predicate HoldsMinor(b: seq<real>, a: seq<real>, n: nat, x: nat, y: nat, rows: nat) {
    && |a| == |b| == 36 && n <= 6
    && forall k: nat, l: nat {:trigger Cell(b, k, l)} ::
      k < rows && k < n - 1 && l < n - 1 ==> Cell(b, k, l) == Cell(a, Skip(k, x), Skip(l, y))
  }

  function Cell(a: seq<real>, k: nat, l: nat): real
    requires |a| == 36
  {
    if 6 * k + l < 36 then a[6 * k + l] else 0.0
  }

  lemma CellUpdate(b: seq<real>, k: nat, l: nat, v: real, k': nat, l': nat)
    requires |b| == 36 && k < 6 && l < 6 && k' < 6 && l' < 6
    ensures Cell(b[6 * k + l := v], k', l') == if k' == k && l' == l then v else Cell(b, k', l')
  {
  }

  /** `inv_matrix_det_incd`: the row and column indices jump over x and y inside the loops;
      leaving out the last row or column copies one line of cells past the minor. */
  method InvMatrixDetIncd(a: array<real>, b: array<real>, n: Size, x: nat, y: nat)
    requires a.Length == b.Length == 36 && a != b
    requires 2 <= n.value <= 5 && x < n.value && y < n.value
    modifies b, n
    ensures n.value == old(n.value) - 1
    ensures HoldsMinor(b[..], a[..], old(n.value), x, y, old(n.value))
  {
    var i, k := 0, 0;
    while i < n.value
      invariant n.value == old(n.value)
      invariant 0 <= k <= n.value && i == if k <= x then k else k + 1
      invariant HoldsMinor(b[..], a[..], n.value, x, y, k)
    {
      var j, l := 0, 0;
      while j < n.value
        invariant n.value == old(n.value)
        invariant 0 <= l <= n.value && j == if l <= y then l else l + 1
        invariant i == if l > 0 then Skip(k, x) else if k <= x then k else k + 1
        invariant HoldsMinor(b[..], a[..], n.value, x, y, k)
        invariant forall l': nat {:trigger Cell(b[..], k, l')} :: l' < l && l' < n.value - 1 ==>
          Cell(b[..], k, l') == Cell(a[..], Skip(k, x), Skip(l', y))
      {
        if i == x {
          i := i + 1;
        }
        if j == y {
          j := j + 1;
        }
        ghost var before := b[..];
        b[6 * k + l] := a[6 * i + j];
        CopyOne(before, b[..], a[..], n.value, x, y, k, l);
        j, l := j + 1, l + 1;
      }
      i, k := i + 1, k + 1;
    }
    n.value := n.value - 1;
  }

  lemma CopyOne(before: seq<real>, b: seq<real>, a: seq<real>, n: nat, x: nat, y: nat, k: nat, l: nat)
    requires |a| == |before| == |b| == 36 && 2 <= n <= 5 && k < n && l < n
    requires b == before[6 * k + l := a[6 * Skip(k, x) + Skip(l, y)]]
    requires HoldsMinor(before, a, n, x, y, k)
    requires forall l': nat :: l' < l && l' < n - 1 ==> Cell(before, k, l') == Cell(a, Skip(k, x), Skip(l', y))
    ensures HoldsMinor(b, a, n, x, y, k)
    ensures forall l': nat :: l' < l + 1 && l' < n - 1 ==> Cell(b, k, l') == Cell(a, Skip(k, x), Skip(l', y))
  {
    forall k': nat, l': nat | k' < 6 && l' < 6
      ensures Cell(b, k', l') == if k' == k && l' == l then a[6 * Skip(k, x) + Skip(l, y)] else Cell(before, k', l')
    {
      CellUpdate(before, k, l, a[6 * Skip(k, x) + Skip(l, y)], k', l');
    }
  }

  // ---------------------------------------------------------------- the recursion

  lemma MinorIsRemoval(b: seq<real>, a: seq<real>, n: nat, c: nat)
    requires 2 <= n <= 6 && c < n && HoldsMinor(b, a, n, 0, c, n)
    ensures Det(At(b), 0, Cols(n - 1)) == Det(At(a), 1, Remove(Cols(n), c))
  {
    var rest := Remove(Cols(n), c);
    forall i: nat, j: nat {:trigger SameEntry(At(b), 0, Cols(n - 1), At(a), 1, rest, i, j)} | i < n - 1 && j < n - 1
      ensures SameEntry(At(b), 0, Cols(n - 1), At(a), 1, rest, i, j)
    {
      assert Cell(b, i, j) == Cell(a, Skip(i, 0), Skip(j, c));
      assert At(b)(0 + i, j) == Cell(b, i, j) && At(a)(1 + i, Skip(j, c)) == Cell(a, i + 1, Skip(j, c));
    }
    DetOfCopy(At(b), 0, Cols(n - 1), At(a), 1, rest);
  }

  lemma DetOfOne(f: Matrix, r: nat, c: nat)
    ensures Det(f, r, [c]) == f(r, c)
  {
    assert Remove([c], 0) == [];
    assert Expand(f, r, [c], 1) == Expand(f, r, [c], 0) + Term(f, r, [c], 0);
  }

  lemma DetOfTwo(f: Matrix)
    ensures Det(f, 0, Cols(2)) == f(0, 0) * f(1, 1) - f(0, 1) * f(1, 0)
  {
    var cols := Cols(2);
    assert Remove(cols, 0) == [1] && Remove(cols, 1) == [0];
    DetOfOne(f, 1, 0);
    DetOfOne(f, 1, 1);
    assert Expand(f, 0, cols, 1) == Expand(f, 0, cols, 0) + Term(f, 0, cols, 0);
    assert Expand(f, 0, cols, 2) == Expand(f, 0, cols, 1) + Term(f, 0, cols, 1);
    assert -f(0, 1) * f(1, 0) == -(f(0, 1) * f(1, 0));
  }

  function SignM(k: int): real {
    if k % 2 == 1 then -1.0 else 1.0
  }

  lemma SignedTerm(x: real, sign: real, d: real)
    requires sign == 1.0 || sign == -1.0
    ensures x * sign * d == Times(if sign == 1.0 then x else -x, d)
  {
  }

  /** Main result: `inv_matrix_detd` is the Laplace determinant for every matrix of two to
      five rows; the shared counter always comes back as 2. */
  method InvMatrixDetd(p: array<real>, n: Size) returns (sum: real)
    requires p.Length == 36 && 2 <= n.value <= 5
    modifies n
    ensures sum == Det(At(p[..]), 0, Cols(old(n.value)))
    ensures n.value == 2
    decreases n.value
  {
    var d := new real[36](_ => 0.0);
    sum := 0.0;
    var m := n.value;
    if n.value == 2 {
      DetOfTwo(At(p[..]));
      return p[0] * p[7] - p[1] * p[6];
    }
    ghost var f := At(p[..]);
    for j := 0 to m
      invariant j > 0 ==> n.value == 2
      invariant At(p[..]) == f && fresh(d)
      invariant sum == Expand(f, 0, Cols(m), j)
    {
      n.value := m;
      InvMatrixDetIncd(p, d, n, 0, j);
      MinorIsRemoval(d[..], p[..], m, j);
      var minor := InvMatrixDetd(d, n);
      SignedTerm(p[j], SignM(j), minor);
      sum := sum + p[j] * SignM(j) * minor;
    }
  }

  /** Corollary: exchanging two rows of the stored matrix negates what the code computes. */
  lemma RowSwapNegates(a: seq<real>, b: seq<real>, n: nat, r: nat, s: nat)
    requires |a| == |b| == 36 && n <= 5 && r < s < n
    requires forall i: nat, j: nat {:trigger Cell(b, i, j)} :: i < n && j < n ==>
      Cell(b, i, j) == Cell(a, if i == r then s else if i == s then r else i, j)
    ensures Det(At(b), 0, Cols(n)) == -Det(At(a), 0, Cols(n))
  {
    var g := Swap(At(a), r, s);
    SwapNegates(At(a), g, r, s, Cols(n));
    forall i: nat, j: nat {:trigger SameEntry(At(b), 0, Cols(n), g, 0, Cols(n), i, j)} | i < n && j < n
      ensures SameEntry(At(b), 0, Cols(n), g, 0, Cols(n), i, j)
    {
      var k := if i == r then s else if i == s then r else i;
      assert Cell(b, i, j) == Cell(a, k, j);
      assert At(b)(0 + i, j) == Cell(b, i, j) && At(a)(k, j) == Cell(a, k, j);
      assert g(0 + i, j) == At(a)(k, j);
    }
    DetOfCopy(At(b), 0, Cols(n), g, 0, Cols(n));
  }
}
