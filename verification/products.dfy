/** The product of two matrices, C[i, j] = sum over k < n of A[i, k] * B[k, j],
    accumulated in increasing k exactly as every loop of the program does, and
    the algebra of that sum the recursive algorithms rely on. */
module Products {
  import opened MatrixValues

  /** A is m x n and B is n x p: the product A * B is defined. */
  predicate Composable(a: Mat, b: Mat) {
    WellFormed(a) && WellFormed(b) && a.cols == b.rows
  }

  /** The partial sum a(i, 0) * b(0, j) + ... + a(i, k - 1) * b(k - 1, j): the
      value the accumulator c(i, j) holds after the first k steps of the
      innermost sum. */
  function Dot(a: Mat, b: Mat, i: nat, j: nat, k: nat): int
    requires Composable(a, b) && i < a.rows && j < b.cols && k <= a.cols
  {
    if k == 0 then 0 else Dot(a, b, i, j, k - 1) + Get(a, i, k - 1) * Get(b, k - 1, j)
  }

  /** c is A * B: the m x p matrix of full sums. */
  predicate IsProduct(c: Mat, a: Mat, b: Mat) {
    && Composable(a, b) && WellFormed(c) && c.rows == a.rows && c.cols == b.cols
    && forall i: nat, j: nat :: i < c.rows && j < c.cols ==> Get(c, i, j) == Dot(a, b, i, j, a.cols)
  }

  /** A * B, the matrix `reference_matmul` computes. */
  function Product(a: Mat, b: Mat): (c: Mat)
    requires Composable(a, b)
    ensures IsProduct(c, a, b)
  {
    Build(a.rows, b.cols, (i: nat, j: nat) requires i < a.rows && j < b.cols => Dot(a, b, i, j, a.cols))
  }

  // ---------------------------------------------------------------------
  // The sum restricted to a range of k

  /** Splitting the sum at s: the terms with k in [s, s + k) are the partial
      sum of the product of the blocks x of A and y of B that those k select. */
  lemma {:induction false} DotShift(a: Mat, b: Mat, x: Mat, y: Mat, r0: nat, c0: nat, s: nat,
                                    i: nat, j: nat, k: nat)
    requires Composable(a, b) && IsBlock(x, a, r0, s) && IsBlock(y, b, s, c0) && x.cols == y.rows
    requires i < x.rows && j < y.cols && k <= x.cols
    ensures Dot(a, b, r0 + i, c0 + j, s + k) == Dot(a, b, r0 + i, c0 + j, s) + Dot(x, y, i, j, k)
  {
    if k > 0 {
      DotShift(a, b, x, y, r0, c0, s, i, j, k - 1);
      assert Get(x, i, k - 1) == Get(a, r0 + i, s + (k - 1));
      assert Get(y, k - 1, j) == Get(b, s + (k - 1), c0 + j);
    }
  }

  /** The full sum is the sum over the first h values of k plus the sum over
      the rest, each the sum of a product of blocks. */
  lemma DotSplit(a: Mat, b: Mat, x1: Mat, y1: Mat, x2: Mat, y2: Mat, r0: nat, c0: nat, h: nat,
                 i: nat, j: nat)
    requires Composable(a, b)
    requires IsBlock(x1, a, r0, 0) && IsBlock(y1, b, 0, c0) && x1.cols == h == y1.rows
    requires IsBlock(x2, a, r0, h) && IsBlock(y2, b, h, c0) && x2.cols == a.cols - h == y2.rows
    requires i < x1.rows && i < x2.rows && j < y1.cols && j < y2.cols
    ensures Dot(a, b, r0 + i, c0 + j, a.cols) == Dot(x1, y1, i, j, h) + Dot(x2, y2, i, j, a.cols - h)
  {
    DotShift(a, b, x1, y1, r0, c0, 0, i, j, h);
    DotShift(a, b, x2, y2, r0, c0, h, i, j, a.cols - h);
  }

  // ---------------------------------------------------------------------
  // The sum is bilinear

  lemma {:induction false} DotAddLeft(s: Mat, x: Mat, y: Mat, b: Mat, i: nat, j: nat, k: nat)
    requires IsSum(s, x, y) && Composable(x, b)
    requires i < x.rows && j < b.cols && k <= x.cols
    ensures Dot(s, b, i, j, k) == Dot(x, b, i, j, k) + Dot(y, b, i, j, k)
  {
    if k > 0 {
      DotAddLeft(s, x, y, b, i, j, k - 1);
      var u, v, w := Get(x, i, k - 1), Get(y, i, k - 1), Get(b, k - 1, j);
      assert (u + v) * w == u * w + v * w;
    }
  }

  lemma {:induction false} DotSubLeft(s: Mat, x: Mat, y: Mat, b: Mat, i: nat, j: nat, k: nat)
    requires IsDifference(s, x, y) && Composable(x, b)
    requires i < x.rows && j < b.cols && k <= x.cols
    ensures Dot(s, b, i, j, k) == Dot(x, b, i, j, k) - Dot(y, b, i, j, k)
  {
    if k > 0 {
      DotSubLeft(s, x, y, b, i, j, k - 1);
      var u, v, w := Get(x, i, k - 1), Get(y, i, k - 1), Get(b, k - 1, j);
      assert (u - v) * w == u * w - v * w;
    }
  }

  lemma {:induction false} DotAddRight(a: Mat, s: Mat, x: Mat, y: Mat, i: nat, j: nat, k: nat)
    requires IsSum(s, x, y) && Composable(a, x)
    requires i < a.rows && j < x.cols && k <= a.cols
    ensures Dot(a, s, i, j, k) == Dot(a, x, i, j, k) + Dot(a, y, i, j, k)
  {
    if k > 0 {
      DotAddRight(a, s, x, y, i, j, k - 1);
      var u, v, w := Get(x, k - 1, j), Get(y, k - 1, j), Get(a, i, k - 1);
      assert w * (u + v) == w * u + w * v;
    }
  }

  lemma {:induction false} DotSubRight(a: Mat, s: Mat, x: Mat, y: Mat, i: nat, j: nat, k: nat)
    requires IsDifference(s, x, y) && Composable(a, x)
    requires i < a.rows && j < x.cols && k <= a.cols
    ensures Dot(a, s, i, j, k) == Dot(a, x, i, j, k) - Dot(a, y, i, j, k)
  {
    if k > 0 {
      DotSubRight(a, s, x, y, i, j, k - 1);
      var u, v, w := Get(x, k - 1, j), Get(y, k - 1, j), Get(a, i, k - 1);
      assert w * (u - v) == w * u - w * v;
    }
  }

  // ---------------------------------------------------------------------
  // Block multiplication

  /** The block of A * B at rows [r0, r1) and columns [c0, c1) is the sum of
      the two products of blocks that the split of the inner dimension at h
      gives. */
  lemma QuadrantOfProduct(a: Mat, b: Mat, r0: nat, r1: nat, c0: nat, c1: nat, h: nat)
    requires Composable(a, b)
    requires r0 <= r1 <= a.rows && c0 <= c1 <= b.cols && h <= a.cols
    ensures Block(Product(a, b), r0, r1, c0, c1)
            == MatAdd(Product(Block(a, r0, r1, 0, h), Block(b, 0, h, c0, c1)),
                      Product(Block(a, r0, r1, h, a.cols), Block(b, h, a.cols, c0, c1)))
  {
    var x1, y1 := Block(a, r0, r1, 0, h), Block(b, 0, h, c0, c1);
    var x2, y2 := Block(a, r0, r1, h, a.cols), Block(b, h, a.cols, c0, c1);
    var p, u, v := Product(a, b), Product(x1, y1), Product(x2, y2);
    SumOfProducts(a, b, p, Block(p, r0, r1, c0, c1), x1, y1, x2, y2, u, v, MatAdd(u, v), r0, c0, h);
  }

  lemma SumOfProducts(a: Mat, b: Mat, p: Mat, q: Mat, x1: Mat, y1: Mat, x2: Mat, y2: Mat,
                      u: Mat, v: Mat, s: Mat, r0: nat, c0: nat, h: nat)
    requires IsProduct(p, a, b) && IsBlock(q, p, r0, c0)
    requires IsBlock(x1, a, r0, 0) && IsBlock(y1, b, 0, c0) && x1.cols == h == y1.rows
    requires IsBlock(x2, a, r0, h) && IsBlock(y2, b, h, c0) && x2.cols == a.cols - h == y2.rows
    requires q.rows == x1.rows == x2.rows && q.cols == y1.cols == y2.cols
    requires IsProduct(u, x1, y1) && IsProduct(v, x2, y2) && IsSum(s, u, v)
    ensures q == s
  {
    forall i: nat, j: nat | i < q.rows && j < q.cols
      ensures Get(q, i, j) == Get(s, i, j)
    {
      DotSplit(a, b, x1, y1, x2, y2, r0, c0, h, i, j);
    }
    Ext(q, s);
  }

  /** The quadrants of A and of B tile them, and each column split of A
      matches the row split of B, so that the block formula is defined. */
  predicate BlockComposable(a11: Mat, a12: Mat, a21: Mat, a22: Mat, b11: Mat, b12: Mat, b21: Mat, b22: Mat) {
    && QuadrantsFit(a11, a12, a21, a22) && QuadrantsFit(b11, b12, b21, b22)
    && a11.cols == b11.rows && a12.cols == b21.rows
  }

  /** The block formula: C11 = A11 B11 + A12 B21, C12 = A11 B12 + A12 B22,
      C21 = A21 B11 + A22 B21, C22 = A21 B12 + A22 B22, tiled. */
  function BlockSum(a11: Mat, a12: Mat, a21: Mat, a22: Mat, b11: Mat, b12: Mat, b21: Mat, b22: Mat): (c: Mat)
    requires BlockComposable(a11, a12, a21, a22, b11, b12, b21, b22)
    ensures WellFormed(c) && c.rows == a11.rows + a21.rows && c.cols == b11.cols + b12.cols
  {
    Assemble(MatAdd(Product(a11, b11), Product(a12, b21)),
             MatAdd(Product(a11, b12), Product(a12, b22)),
             MatAdd(Product(a21, b11), Product(a22, b21)),
             MatAdd(Product(a21, b12), Product(a22, b22)))
  }

  /** Block multiplication: splitting A at (mh, nh) and B at (nh, ph), each
      quadrant of A * B is the sum of two products of quadrants. */
  lemma BlockProduct(a: Mat, b: Mat, mh: nat, nh: nat, ph: nat)
    requires Composable(a, b) && mh <= a.rows && nh <= a.cols && ph <= b.cols
    ensures var m, n, p := a.rows, a.cols, b.cols;
            var a11, a12 := Block(a, 0, mh, 0, nh), Block(a, 0, mh, nh, n);
            var a21, a22 := Block(a, mh, m, 0, nh), Block(a, mh, m, nh, n);
            var b11, b12 := Block(b, 0, nh, 0, ph), Block(b, 0, nh, ph, p);
            var b21, b22 := Block(b, nh, n, 0, ph), Block(b, nh, n, ph, p);
            Product(a, b) == BlockSum(a11, a12, a21, a22, b11, b12, b21, b22)
  {
    var m, n, p := a.rows, a.cols, b.cols;
    var c := Product(a, b);
    QuadrantOfProduct(a, b, 0, mh, 0, ph, nh);
    QuadrantOfProduct(a, b, 0, mh, ph, p, nh);
    QuadrantOfProduct(a, b, mh, m, 0, ph, nh);
    QuadrantOfProduct(a, b, mh, m, ph, p, nh);
    AssembleSplit(c, mh, ph);
  }
}
