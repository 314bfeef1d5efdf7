/** The determinant by Laplace expansion, over reals, and its defining symmetry. */
module Determinant {

  /** Entries by row and column. */
  type Matrix = (nat, nat) -> real

  function Remove(cols: seq<nat>, p: nat): (r: seq<nat>)
    requires p < |cols|
    ensures |r| == |cols| - 1
    ensures forall k: nat {:trigger r[k]} :: k < |r| ==> r[k] == cols[if k < p then k else k + 1]
  {
    cols[..p] + cols[p + 1..]
  }

  /** The determinant of the square matrix made of the columns `cols` of as many rows from
      r on: Laplace expansion along row r. */
  function Det(f: Matrix, r: nat, cols: seq<nat>): real
    decreases |cols|, |cols| + 1
  {
    if cols == [] then 1.0 else Expand(f, r, cols, |cols|)
  }

  /** The first k terms of the expansion. */
  function Expand(f: Matrix, r: nat, cols: seq<nat>, k: nat): real
    requires k <= |cols|
    decreases |cols|, k
  {
    if k == 0 then 0.0 else Expand(f, r, cols, k - 1) + Term(f, r, cols, k - 1)
  }

  /** The signed entry of row r in the p-th column, times its minor. */
  function Term(f: Matrix, r: nat, cols: seq<nat>, p: nat): real
    requires p < |cols|
    decreases |cols|, 0
  {
    Times(Weight(f, r, cols, p), Det(f, r + 1, Remove(cols, p)))
  }

  function Times(x: real, y: real): real {
    x * y
  }

  function Weight(f: Matrix, r: nat, cols: seq<nat>, p: nat): real
    requires p < |cols|
  {
    if p % 2 == 1 then -f(r, cols[p]) else f(r, cols[p])
  }

  // ---------------------------------------------------------------- what matters

  ghost predicate SameEntry(f: Matrix, r: nat, here: seq<nat>, g: Matrix, s: nat, there: seq<nat>, i: nat, j: nat)
    requires j < |here| && j < |there|
  {
    f(r + i, here[j]) == g(s + i, there[j])
  }

  /** The rows of g from s on, in columns `there`, are those of f from r on in `here`. */
  ghost predicate Copies(f: Matrix, r: nat, here: seq<nat>, g: Matrix, s: nat, there: seq<nat>) {
    && |here| == |there|
    && forall i: nat, j: nat {:trigger SameEntry(f, r, here, g, s, there, i, j)} ::
      i < |here| && j < |here| ==> SameEntry(f, r, here, g, s, there, i, j)
  }

  lemma CopiesMinor(f: Matrix, r: nat, here: seq<nat>, g: Matrix, s: nat, there: seq<nat>, p: nat)
    requires Copies(f, r, here, g, s, there) && p < |here|
    ensures Copies(f, r + 1, Remove(here, p), g, s + 1, Remove(there, p))
  {
    forall i: nat, j: nat {:trigger SameEntry(f, r + 1, Remove(here, p), g, s + 1, Remove(there, p), i, j)} |
      i < |here| - 1 && j < |here| - 1
      ensures SameEntry(f, r + 1, Remove(here, p), g, s + 1, Remove(there, p), i, j)
    {
      var k := if j < p then j else j + 1;
      assert SameEntry(f, r, here, g, s, there, i + 1, k);
      assert Remove(here, p)[j] == here[k] && Remove(there, p)[j] == there[k];
      assert r + 1 + i == r + (i + 1) && s + 1 + i == s + (i + 1);
    }
  }

  /** Equal entries give equal determinants, wherever the matrices lie. */
  lemma {:induction false} DetOfCopy(f: Matrix, r: nat, here: seq<nat>, g: Matrix, s: nat, there: seq<nat>)
    requires Copies(f, r, here, g, s, there)
    ensures Det(f, r, here) == Det(g, s, there)
    decreases |here|, |here| + 1
  {
    if here != [] {
      ExpandOfCopy(f, r, here, g, s, there, |here|);
    }
  }

  lemma {:induction false} ExpandOfCopy(f: Matrix, r: nat, here: seq<nat>, g: Matrix, s: nat, there: seq<nat>, k: nat)
    requires Copies(f, r, here, g, s, there) && k <= |here|
    ensures Expand(f, r, here, k) == Expand(g, s, there, k)
    decreases |here|, k
  {
    if k > 0 {
      ExpandOfCopy(f, r, here, g, s, there, k - 1);
      CopiesMinor(f, r, here, g, s, there, k - 1);
      DetOfCopy(f, r + 1, Remove(here, k - 1), g, s + 1, Remove(there, k - 1));
      assert SameEntry(f, r, here, g, s, there, 0, k - 1);
    }
  }

  // ---------------------------------------------------------------- swapping the two top rows

  /** Removing two columns: the p-th, then the q-th of the rest. */
  function Remove2(cols: seq<nat>, p: nat, q: nat): seq<nat>
    requires p < |cols| && q + 1 < |cols|
  {
    Remove(Remove(cols, p), q)
  }

  /** Choosing column p for row r and then the q-th remaining column for row r + 1. */
  function Pair(f: Matrix, r: nat, cols: seq<nat>, p: nat, q: nat): real
    requires p < |cols| && q + 1 < |cols|
  {
    Times(Weight(f, r, cols, p), Term(f, r + 1, Remove(cols, p), q))
  }

  function PairsOfRow(f: Matrix, r: nat, cols: seq<nat>, p: nat, k: nat): real
    requires p < |cols| && k < |cols|
  {
    if k == 0 then 0.0 else PairsOfRow(f, r, cols, p, k - 1) + Pair(f, r, cols, p, k - 1)
  }

  function PairsOfColumn(f: Matrix, r: nat, cols: seq<nat>, q: nat, k: nat): real
    requires k <= |cols| && q + 1 < |cols|
  {
    if k == 0 then 0.0 else PairsOfColumn(f, r, cols, q, k - 1) + Pair(f, r, cols, k - 1, q)
  }

  function AllPairs(f: Matrix, r: nat, cols: seq<nat>, n: nat, k: nat): real
    requires n <= |cols| && k < |cols|
  {
    if n == 0 then 0.0 else AllPairs(f, r, cols, n - 1, k) + PairsOfRow(f, r, cols, n - 1, k)
  }

  lemma Distribute(x: real, a: real, b: real)
    ensures Times(x, a + b) == Times(x, a) + Times(x, b)
  {
  }

  lemma {:induction false} ExpandBelow(f: Matrix, r: nat, cols: seq<nat>, p: nat, k: nat)
    requires p < |cols| && k < |cols|
    ensures Times(Weight(f, r, cols, p), Expand(f, r + 1, Remove(cols, p), k)) == PairsOfRow(f, r, cols, p, k)
  {
    if k > 0 {
      ExpandBelow(f, r, cols, p, k - 1);
      var below := Remove(cols, p);
      Distribute(Weight(f, r, cols, p), Expand(f, r + 1, below, k - 1), Term(f, r + 1, below, k - 1));
    }
  }

  lemma TermTwice(f: Matrix, r: nat, cols: seq<nat>, p: nat)
    requires p < |cols| && |cols| >= 2
    ensures Term(f, r, cols, p) == PairsOfRow(f, r, cols, p, |cols| - 1)
  {
    ExpandBelow(f, r, cols, p, |cols| - 1);
    assert Remove(cols, p) != [];
  }

  lemma {:induction false} ExpandTwice(f: Matrix, r: nat, cols: seq<nat>, n: nat)
    requires n <= |cols| && |cols| >= 2
    ensures Expand(f, r, cols, n) == AllPairs(f, r, cols, n, |cols| - 1)
  {
    if n > 0 {
      ExpandTwice(f, r, cols, n - 1);
      TermTwice(f, r, cols, n - 1);
    }
  }

  /** g is f with rows a and b exchanged. */
  ghost predicate Swapped(f: Matrix, g: Matrix, a: nat, b: nat) {
    forall i: nat, j: nat {:trigger g(i, j)} :: g(i, j) == f(if i == a then b else if i == b then a else i, j)
  }

  lemma RemovalsCommute(cols: seq<nat>, p: nat, q: nat)
    requires q < p < |cols|
    ensures Remove2(cols, p, q) == Remove2(cols, q, p - 1)
    ensures Remove(cols, p)[q] == cols[q] && Remove(cols, q)[p - 1] == cols[p]
  {
  }

  lemma Regroup(v: real, w: real, d: real)
    ensures Times(v, Times(w, d)) == -Times(w, Times(-v, d))
  {
    assert -v * d == -(v * d);
    assert v * (w * d) == w * (v * d);
  }

  lemma CopyBelow(f: Matrix, g: Matrix, r: nat, cols: seq<nat>)
    requires Swapped(f, g, r, r + 1)
    ensures Copies(f, r + 2, cols, g, r + 2, cols)
  {
    forall i: nat, j: nat {:trigger SameEntry(f, r + 2, cols, g, r + 2, cols, i, j)} | i < |cols| && j < |cols|
      ensures SameEntry(f, r + 2, cols, g, r + 2, cols, i, j)
    {
      assert g(r + 2 + i, cols[j]) == f(r + 2 + i, cols[j]);
    }
  }

  lemma WeightsFlip(f: Matrix, g: Matrix, r: nat, cols: seq<nat>, p: nat, q: nat)
    requires q < p < |cols| && Swapped(f, g, r, r + 1)
    ensures Weight(g, r, cols, q) == Weight(f, r + 1, Remove(cols, p), q)
    ensures Weight(g, r + 1, Remove(cols, q), p - 1) == -Weight(f, r, cols, p)
  {
    assert g(r, cols[q]) == f(r + 1, cols[q]) && g(r + 1, cols[p]) == f(r, cols[p]);
  }

  lemma InnerMinors(f: Matrix, g: Matrix, r: nat, cols: seq<nat>, p: nat, q: nat)
    requires q < p < |cols| && Swapped(f, g, r, r + 1)
    ensures Det(f, r + 2, Remove2(cols, p, q)) == Det(g, r + 2, Remove2(cols, q, p - 1))
  {
    RemovalsCommute(cols, p, q);
    CopyBelow(f, g, r, Remove2(cols, p, q));
    DetOfCopy(f, r + 2, Remove2(cols, p, q), g, r + 2, Remove2(cols, p, q));
  }

  /** Taking column p, then q further left, is minus taking q first from the swapped rows. */
  lemma PairFlips(f: Matrix, g: Matrix, r: nat, cols: seq<nat>, p: nat, q: nat)
    requires q < p < |cols| && Swapped(f, g, r, r + 1)
    ensures Pair(f, r, cols, p, q) == -Pair(g, r, cols, q, p - 1)
  {
    InnerMinors(f, g, r, cols, p, q);
    WeightsFlip(f, g, r, cols, p, q);
    Regroup(Weight(f, r, cols, p), Weight(f, r + 1, Remove(cols, p), q), Det(f, r + 2, Remove2(cols, p, q)));
  }

  lemma SwappedBack(f: Matrix, g: Matrix, a: nat, b: nat)
    requires Swapped(f, g, a, b)
    ensures Swapped(g, f, a, b)
  {
    forall i: nat, j: nat
      ensures f(i, j) == g(if i == a then b else if i == b then a else i, j)
    {
      assert g(if i == a then b else if i == b then a else i, j) == f(i, j);
    }
  }

  /** Row p of one pair table is, up to sign, column p - 1 of the other. */
  lemma {:induction false} RowIsColumn(f: Matrix, g: Matrix, r: nat, cols: seq<nat>, p: nat, k: nat)
    requires k <= p < |cols| && p > 0 && Swapped(f, g, r, r + 1)
    ensures PairsOfRow(f, r, cols, p, k) == -PairsOfColumn(g, r, cols, p - 1, k)
  {
    if k > 0 {
      RowIsColumn(f, g, r, cols, p, k - 1);
      PairFlips(f, g, r, cols, p, k - 1);
    }
  }

  lemma {:induction false} Widen(f: Matrix, r: nat, cols: seq<nat>, n: nat, k: nat)
    requires n <= |cols| && k + 1 < |cols|
    ensures AllPairs(f, r, cols, n, k + 1) == AllPairs(f, r, cols, n, k) + PairsOfColumn(f, r, cols, k, n)
  {
    if n > 0 {
      Widen(f, r, cols, n - 1, k);
    }
  }

  /** The pair tables of a matrix and its swap cancel: each grows by one row and one column
      at a time, and what one gains in a row the other gains in a column. */
  lemma {:induction false} PairTables(f: Matrix, g: Matrix, r: nat, cols: seq<nat>, n: nat)
    requires n < |cols| && Swapped(f, g, r, r + 1)
    ensures AllPairs(f, r, cols, n + 1, n) == -AllPairs(g, r, cols, n + 1, n)
  {
    if n > 0 {
      SwappedBack(f, g, r, r + 1);
      PairTables(f, g, r, cols, n - 1);
      Widen(f, r, cols, n, n - 1);
      Widen(g, r, cols, n, n - 1);
      RowIsColumn(f, g, r, cols, n, n);
      RowIsColumn(g, f, r, cols, n, n);
    } else {
      assert AllPairs(f, r, cols, 0, 0) == 0.0 == PairsOfRow(f, r, cols, 0, 0);
      assert AllPairs(g, r, cols, 0, 0) == 0.0 == PairsOfRow(g, r, cols, 0, 0);
    }
  }

  lemma SwapTopRows(f: Matrix, g: Matrix, r: nat, cols: seq<nat>)
    requires |cols| >= 2 && Swapped(f, g, r, r + 1)
    ensures Det(g, r, cols) == -Det(f, r, cols)
  {
    ExpandTwice(f, r, cols, |cols|);
    ExpandTwice(g, r, cols, |cols|);
    PairTables(f, g, r, cols, |cols| - 1);
  }

  // ---------------------------------------------------------------- swapping any two rows

  lemma {:induction false} SwapNeighbours(f: Matrix, g: Matrix, a: nat, r: nat, cols: seq<nat>)
    requires r <= a && a + 1 < r + |cols| && Swapped(f, g, a, a + 1)
    ensures Det(g, r, cols) == -Det(f, r, cols)
    decreases |cols|, |cols| + 1
  {
    if r == a {
      SwapTopRows(f, g, r, cols);
    } else {
      SwapBelow(f, g, a, r, cols, |cols|);
    }
  }

  lemma {:induction false} SwapBelow(f: Matrix, g: Matrix, a: nat, r: nat, cols: seq<nat>, k: nat)
    requires r < a && a + 1 < r + |cols| && Swapped(f, g, a, a + 1) && k <= |cols|
    ensures Expand(g, r, cols, k) == -Expand(f, r, cols, k)
    decreases |cols|, k
  {
    if k > 0 {
      SwapBelow(f, g, a, r, cols, k - 1);
      SwapNeighbours(f, g, a, r + 1, Remove(cols, k - 1));
      assert g(r, cols[k - 1]) == f(r, cols[k - 1]);
    }
  }

  function Swap(f: Matrix, a: nat, b: nat): (g: Matrix)
    ensures Swapped(f, g, a, b)
  {
    (i: nat, j: nat) => f(if i == a then b else if i == b then a else i, j)
  }

  /** Main result: exchanging any two rows negates the determinant. */
  lemma {:induction false} SwapNegates(f: Matrix, g: Matrix, a: nat, b: nat, cols: seq<nat>)
    requires a < b < |cols| && Swapped(f, g, a, b)
    ensures Det(g, 0, cols) == -Det(f, 0, cols)
    decreases b - a
  {
    if a + 1 == b {
      SwapNeighbours(f, g, a, 0, cols);
    } else {
      var h := Swap(f, b - 1, b);
      var k := Swap(h, a, b - 1);
      SwapNegates(h, k, a, b - 1, cols);
      SwapVia(f, g, h, k, a, b, cols);
    }
  }

  /** An exchange by way of three, of which the outer two are of neighbours. */
  lemma SwapVia(f: Matrix, g: Matrix, h: Matrix, k: Matrix, a: nat, b: nat, cols: seq<nat>)
    requires a + 1 < b < |cols| && Swapped(f, g, a, b)
    requires Swapped(f, h, b - 1, b) && Swapped(h, k, a, b - 1)
    requires Det(k, 0, cols) == -Det(h, 0, cols)
    ensures Det(g, 0, cols) == -Det(f, 0, cols)
  {
    SwapNeighbours(f, h, b - 1, 0, cols);
    ThreeSwaps(f, g, h, k, a, b);
    SwapNeighbours(k, g, b - 1, 0, cols);
  }

  lemma ThreeSwaps(f: Matrix, g: Matrix, h: Matrix, k: Matrix, a: nat, b: nat)
    requires a + 1 < b && Swapped(f, g, a, b)
    requires Swapped(f, h, b - 1, b) && Swapped(h, k, a, b - 1)
    ensures Swapped(k, g, b - 1, b)
  {
    forall i: nat, j: nat
      ensures g(i, j) == k(if i == b - 1 then b else if i == b then b - 1 else i, j)
    {
      var i' := if i == b - 1 then b else if i == b then b - 1 else i;
      var i'' := if i' == a then b - 1 else if i' == b - 1 then a else i';
      assert k(i', j) == h(i'', j);
    }
  }

  /** Two equal rows make the determinant zero. */
  lemma EqualRowsVanish(f: Matrix, a: nat, b: nat, cols: seq<nat>)
    requires a < b < |cols| && forall j: nat :: f(a, j) == f(b, j)
    ensures Det(f, 0, cols) == 0.0
  {
    SwapNegates(f, f, a, b, cols);
  }

  // ---------------------------------------------------------------- linear in every row, and normed

  /** x p + y q. */
  function Blend(x: real, p: real, y: real, q: real): real {
    Times(x, p) + Times(y, q)
  }

  /** Row a of h is x times that of f plus y times that of g; the other rows of all three agree. */
  ghost predicate Blended(f: Matrix, g: Matrix, h: Matrix, a: nat, x: real, y: real) {
    forall i: nat, j: nat {:trigger h(i, j)} ::
      if i == a then h(i, j) == Blend(x, f(i, j), y, g(i, j)) else h(i, j) == f(i, j) == g(i, j)
  }

  lemma BlendSums(x: real, p: real, y: real, q: real, s: real, t: real)
    ensures Blend(x, p, y, q) + Blend(x, s, y, t) == Blend(x, p + s, y, q + t)
  {
  }

  lemma BlendTimes(x: real, p: real, y: real, q: real, d: real)
    ensures Times(Blend(x, p, y, q), d) == Blend(x, Times(p, d), y, Times(q, d))
    ensures Times(d, Blend(x, p, y, q)) == Blend(x, Times(d, p), y, Times(d, q))
    ensures -Blend(x, p, y, q) == Blend(x, -p, y, -q)
  {
    assert x * p * d == x * (p * d) && y * q * d == y * (q * d);
  }

  lemma BlendZero(x: real, y: real)
    ensures Blend(x, 0.0, y, 0.0) == 0.0
  {
  }

  lemma BlendCopies(f: Matrix, h: Matrix, g: Matrix, r: nat, cols: seq<nat>, x: real, y: real)
    requires Blended(f, g, h, r, x, y)
    ensures Copies(f, r + 1, cols, h, r + 1, cols) && Copies(g, r + 1, cols, h, r + 1, cols)
  {
    forall i: nat, j: nat {:trigger SameEntry(f, r + 1, cols, h, r + 1, cols, i, j)} | i < |cols| && j < |cols|
      ensures SameEntry(f, r + 1, cols, h, r + 1, cols, i, j)
    {
      assert h(r + 1 + i, cols[j]) == f(r + 1 + i, cols[j]);
    }
    forall i: nat, j: nat {:trigger SameEntry(g, r + 1, cols, h, r + 1, cols, i, j)} | i < |cols| && j < |cols|
      ensures SameEntry(g, r + 1, cols, h, r + 1, cols, i, j)
    {
      assert h(r + 1 + i, cols[j]) == g(r + 1 + i, cols[j]);
    }
  }

  /** One term of the expansion along the blended row. */
  lemma TermOfTop(f: Matrix, g: Matrix, h: Matrix, r: nat, cols: seq<nat>, x: real, y: real, p: nat)
    requires Blended(f, g, h, r, x, y) && p < |cols|
    ensures Term(h, r, cols, p) == Blend(x, Term(f, r, cols, p), y, Term(g, r, cols, p))
  {
    var minor := Remove(cols, p);
    BlendCopies(f, h, g, r, minor, x, y);
    DetOfCopy(f, r + 1, minor, h, r + 1, minor);
    DetOfCopy(g, r + 1, minor, h, r + 1, minor);
    assert h(r, cols[p]) == Blend(x, f(r, cols[p]), y, g(r, cols[p]));
    BlendTimes(x, f(r, cols[p]), y, g(r, cols[p]), 0.0);
    BlendTimes(x, Weight(f, r, cols, p), y, Weight(g, r, cols, p), Det(h, r + 1, minor));
  }

  /** One term of the expansion along another row, given the minors'. */
  lemma TermOfOther(f: Matrix, g: Matrix, h: Matrix, a: nat, r: nat, cols: seq<nat>, x: real, y: real, p: nat)
    requires Blended(f, g, h, a, x, y) && r < a && p < |cols|
    requires var minor := Remove(cols, p);
      Det(h, r + 1, minor) == Blend(x, Det(f, r + 1, minor), y, Det(g, r + 1, minor))
    ensures Term(h, r, cols, p) == Blend(x, Term(f, r, cols, p), y, Term(g, r, cols, p))
  {
    var minor := Remove(cols, p);
    assert h(r, cols[p]) == f(r, cols[p]) == g(r, cols[p]);
    BlendTimes(x, Det(f, r + 1, minor), y, Det(g, r + 1, minor), Weight(h, r, cols, p));
  }

  lemma {:induction false} ExpandIsLinear(f: Matrix, g: Matrix, h: Matrix, a: nat, r: nat, cols: seq<nat>,
                                          x: real, y: real, k: nat)
    requires Blended(f, g, h, a, x, y) && r <= a < r + |cols| && k <= |cols|
    ensures Expand(h, r, cols, k) == Blend(x, Expand(f, r, cols, k), y, Expand(g, r, cols, k))
    decreases |cols|, k
  {
    if k == 0 {
      BlendZero(x, y);
    } else {
      ExpandIsLinear(f, g, h, a, r, cols, x, y, k - 1);
      if a == r {
        TermOfTop(f, g, h, r, cols, x, y, k - 1);
      } else {
        DetIsLinear(f, g, h, a, r + 1, Remove(cols, k - 1), x, y);
        TermOfOther(f, g, h, a, r, cols, x, y, k - 1);
      }
      BlendSums(x, Expand(f, r, cols, k - 1), y, Expand(g, r, cols, k - 1),
        Term(f, r, cols, k - 1), Term(g, r, cols, k - 1));
    }
  }

  /** Main result: the determinant is linear in every row. */
  lemma {:induction false} DetIsLinear(f: Matrix, g: Matrix, h: Matrix, a: nat, r: nat, cols: seq<nat>,
                                       x: real, y: real)
    requires Blended(f, g, h, a, x, y) && r <= a < r + |cols|
    ensures Det(h, r, cols) == Blend(x, Det(f, r, cols), y, Det(g, r, cols))
    decreases |cols|, |cols| + 1
  {
    ExpandIsLinear(f, g, h, a, r, cols, x, y, |cols|);
  }

  predicate ZeroAt(f: Matrix, r: nat, cols: seq<nat>, i: nat, j: nat)
    requires j < |cols|
  {
    f(r + i, cols[j]) == 0.0
  }

  /** Nothing right of the diagonal. */
  ghost predicate Triangular(f: Matrix, r: nat, cols: seq<nat>) {
    forall i: nat, j: nat {:trigger ZeroAt(f, r, cols, i, j)} :: i < j < |cols| ==> ZeroAt(f, r, cols, i, j)
  }

  /** The product of the diagonal. */
  function Diagonal(f: Matrix, r: nat, cols: seq<nat>): real
    decreases |cols|
  {
    if cols == [] then 1.0 else Times(f(r, cols[0]), Diagonal(f, r + 1, cols[1..]))
  }

  lemma ZeroTimes(x: real)
    ensures Times(0.0, x) == 0.0 && Times(-0.0, x) == 0.0
  {
  }

  lemma {:induction false} OneTerm(f: Matrix, r: nat, cols: seq<nat>, k: nat)
    requires Triangular(f, r, cols) && 0 < k <= |cols|
    ensures Expand(f, r, cols, k) == Term(f, r, cols, 0)
  {
    if k > 1 {
      OneTerm(f, r, cols, k - 1);
      assert ZeroAt(f, r, cols, 0, k - 1);
      ZeroTimes(Det(f, r + 1, Remove(cols, k - 1)));
    } else {
      assert Expand(f, r, cols, 0) == 0.0;
    }
  }

  lemma TriangularBelow(f: Matrix, r: nat, cols: seq<nat>)
    requires Triangular(f, r, cols) && cols != []
    ensures Remove(cols, 0) == cols[1..] && Triangular(f, r + 1, cols[1..])
  {
    forall i: nat, j: nat {:trigger ZeroAt(f, r + 1, cols[1..], i, j)} | i < j < |cols| - 1
      ensures ZeroAt(f, r + 1, cols[1..], i, j)
    {
      assert ZeroAt(f, r, cols, i + 1, j + 1);
    }
  }

  /** Main result: the determinant of a triangular matrix is the product of its diagonal, so that
      of the identity is one. With SwapNegates and DetIsLinear this is what makes it the
      determinant. */
  lemma {:induction false} TriangularDet(f: Matrix, r: nat, cols: seq<nat>)
    requires Triangular(f, r, cols)
    ensures Det(f, r, cols) == Diagonal(f, r, cols)
    decreases |cols|
  {
    if cols != [] {
      OneTerm(f, r, cols, |cols|);
      TriangularBelow(f, r, cols);
      TriangularDet(f, r + 1, cols[1..]);
    }
  }
}
