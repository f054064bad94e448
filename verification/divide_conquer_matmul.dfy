/** Divide-and-conquer multiplication (rust/src/divide_conquer_matmul.rs):
    split A and B into quadrants at the floor halves, form the eight products
    of quadrants recursively, add them in pairs and tile the four sums.  The
    value model is used throughout: the recursion only ever adds freshly
    computed sub-results, never its inputs. */
module DivideConquer {
  import opened Errors
  import opened MatrixValues
  import opened Products

  /** The recursion reaches its base case on every path.  With threshold 0 a
      product with m, n, p all at least 1 keeps producing a 1 x 1 x 1
      sub-product that splits into itself; an empty dimension is a base case
      for any threshold. */
  predicate Descends(m: nat, n: nat, p: nat, threshold: nat) {
    threshold >= 1 || m == 0 || n == 0 || p == 0
  }

  /** The quadrants of A and of B tile them, each A-quadrant column split
      matches the B-quadrant row split, and no quadrant is empty. */
  predicate SplitQuadrants(a11: Mat, a12: Mat, a21: Mat, a22: Mat, b11: Mat, b12: Mat, b21: Mat, b22: Mat) {
    && BlockComposable(a11, a12, a21, a22, b11, b12, b21, b22)
    && a11.rows >= 1 && a21.rows >= 1 && a11.cols >= 1 && a12.cols >= 1 && b11.cols >= 1 && b12.cols >= 1
  }

  /** The eight (A-quadrant, B-quadrant) pairs, in the order the parallel
      branch lists them. */
  function Operands(a11: Mat, a12: Mat, a21: Mat, a22: Mat,
                    b11: Mat, b12: Mat, b21: Mat, b22: Mat): (s: seq<(Mat, Mat)>)
    requires SplitQuadrants(a11, a12, a21, a22, b11, b12, b21, b22)
    ensures |s| == 8
    ensures forall i | 0 <= i < 8 :: Composable(s[i].0, s[i].1)
    ensures forall i | 0 <= i < 8 ::
              s[i].0.rows + s[i].0.cols + s[i].1.cols
              < a11.rows + a21.rows + a11.cols + a12.cols + b11.cols + b12.cols
  {
    [(a11, b11), (a12, b21), (a11, b12), (a12, b22), (a21, b11), (a22, b21), (a21, b12), (a22, b22)]
  }

  /** `divide_conquer_recursive`. */
  function DivideConquerRecursive(a: Mat, b: Mat, threshold: nat, parallel: bool): (c: Mat)
    requires Composable(a, b) && Descends(a.rows, a.cols, b.cols, threshold)
    ensures WellFormed(c) && c.rows == a.rows && c.cols == b.cols
    decreases a.rows + a.cols + b.cols, 2
  {
    var m, n, p := a.rows, a.cols, b.cols;
    if m <= threshold || n <= threshold || p <= threshold then
      Product(a, b)
    else
      var mh, nh, ph := m / 2, n / 2, p / 2;
      QuadrantProducts(Block(a, 0, mh, 0, nh), Block(a, 0, mh, nh, n),
                       Block(a, mh, m, 0, nh), Block(a, mh, m, nh, n),
                       Block(b, 0, nh, 0, ph), Block(b, 0, nh, ph, p),
                       Block(b, nh, n, 0, ph), Block(b, nh, n, ph, p), threshold, parallel)
  }

  /** The eight recursive products of quadrants, summed in pairs and tiled
      into the result (divide_conquer_matmul.rs, from the comment listing the
      four sums to the call of `combine_quadrants`). */
  function QuadrantProducts(a11: Mat, a12: Mat, a21: Mat, a22: Mat,
                            b11: Mat, b12: Mat, b21: Mat, b22: Mat,
                            threshold: nat, parallel: bool): (c: Mat)
    requires SplitQuadrants(a11, a12, a21, a22, b11, b12, b21, b22) && threshold >= 1
    ensures WellFormed(c) && c.rows == a11.rows + a21.rows && c.cols == b11.cols + b12.cols
    decreases a11.rows + a21.rows + a11.cols + a12.cols + b11.cols + b12.cols, 1
  {
    if parallel then ParallelProducts(a11, a12, a21, a22, b11, b12, b21, b22, threshold)
    else SequentialProducts(a11, a12, a21, a22, b11, b12, b21, b22, threshold)
  }

  /** The parallel branch: the eight pairs mapped through the recursion, the
      i-th result from the i-th pair, then added in consecutive pairs. */
  function ParallelProducts(a11: Mat, a12: Mat, a21: Mat, a22: Mat,
                            b11: Mat, b12: Mat, b21: Mat, b22: Mat, threshold: nat): (c: Mat)
    requires SplitQuadrants(a11, a12, a21, a22, b11, b12, b21, b22) && threshold >= 1
    ensures WellFormed(c) && c.rows == a11.rows + a21.rows && c.cols == b11.cols + b12.cols
    decreases a11.rows + a21.rows + a11.cols + a12.cols + b11.cols + b12.cols, 0
  {
    var pairs := Operands(a11, a12, a21, a22, b11, b12, b21, b22);
    var results := seq(8, i requires 0 <= i < 8 =>
                            DivideConquerRecursive(pairs[i].0, pairs[i].1, threshold, true));
    Assemble(MatAdd(results[0], results[1]), MatAdd(results[2], results[3]),
             MatAdd(results[4], results[5]), MatAdd(results[6], results[7]))
  }

  /** The sequential branch: the products computed two at a time and added. */
  function SequentialProducts(a11: Mat, a12: Mat, a21: Mat, a22: Mat,
                              b11: Mat, b12: Mat, b21: Mat, b22: Mat, threshold: nat): (c: Mat)
    requires SplitQuadrants(a11, a12, a21, a22, b11, b12, b21, b22) && threshold >= 1
    ensures WellFormed(c) && c.rows == a11.rows + a21.rows && c.cols == b11.cols + b12.cols
    decreases a11.rows + a21.rows + a11.cols + a12.cols + b11.cols + b12.cols, 0
  {
    var c11 := MatAdd(DivideConquerRecursive(a11, b11, threshold, false),
                      DivideConquerRecursive(a12, b21, threshold, false));
    var c12 := MatAdd(DivideConquerRecursive(a11, b12, threshold, false),
                      DivideConquerRecursive(a12, b22, threshold, false));
    var c21 := MatAdd(DivideConquerRecursive(a21, b11, threshold, false),
                      DivideConquerRecursive(a22, b21, threshold, false));
    var c22 := MatAdd(DivideConquerRecursive(a21, b12, threshold, false),
                      DivideConquerRecursive(a22, b22, threshold, false));
    Assemble(c11, c12, c21, c22)
  }

  /** The recursion computes A * B, for every threshold that lets it end and
      whether or not it runs in parallel. */
  lemma {:induction false} DivideConquerCorrect(a: Mat, b: Mat, threshold: nat, parallel: bool)
    requires Composable(a, b) && Descends(a.rows, a.cols, b.cols, threshold)
    ensures DivideConquerRecursive(a, b, threshold, parallel) == Product(a, b)
    decreases a.rows + a.cols + b.cols, 2
  {
    var m, n, p := a.rows, a.cols, b.cols;
    if !(m <= threshold || n <= threshold || p <= threshold) {
      var mh, nh, ph := m / 2, n / 2, p / 2;
      QuadrantProductsCorrect(Block(a, 0, mh, 0, nh), Block(a, 0, mh, nh, n),
                              Block(a, mh, m, 0, nh), Block(a, mh, m, nh, n),
                              Block(b, 0, nh, 0, ph), Block(b, 0, nh, ph, p),
                              Block(b, nh, n, 0, ph), Block(b, nh, n, ph, p), threshold, parallel);
      BlockProduct(a, b, mh, nh, ph);
    }
  }

  /** Each sum of two recursive products is the block sum of the exact
      products. */
  lemma {:induction false} QuadrantProductsCorrect(a11: Mat, a12: Mat, a21: Mat, a22: Mat,
                                                   b11: Mat, b12: Mat, b21: Mat, b22: Mat,
                                                   threshold: nat, parallel: bool)
    requires SplitQuadrants(a11, a12, a21, a22, b11, b12, b21, b22) && threshold >= 1
    ensures QuadrantProducts(a11, a12, a21, a22, b11, b12, b21, b22, threshold, parallel)
            == BlockSum(a11, a12, a21, a22, b11, b12, b21, b22)
    decreases a11.rows + a21.rows + a11.cols + a12.cols + b11.cols + b12.cols, 1
  {
    DivideConquerCorrect(a11, b11, threshold, parallel);
    DivideConquerCorrect(a12, b21, threshold, parallel);
    DivideConquerCorrect(a11, b12, threshold, parallel);
    DivideConquerCorrect(a12, b22, threshold, parallel);
    DivideConquerCorrect(a21, b11, threshold, parallel);
    DivideConquerCorrect(a22, b21, threshold, parallel);
    DivideConquerCorrect(a21, b12, threshold, parallel);
    DivideConquerCorrect(a22, b22, threshold, parallel);
  }

  /** The parallel and the sequential branch give the same matrix. */
  lemma ParallelMatchesSequential(a: Mat, b: Mat, threshold: nat)
    requires Composable(a, b) && Descends(a.rows, a.cols, b.cols, threshold)
    ensures DivideConquerRecursive(a, b, threshold, true) == DivideConquerRecursive(a, b, threshold, false)
  {
    DivideConquerCorrect(a, b, threshold, true);
    DivideConquerCorrect(a, b, threshold, false);
  }

  /** `divide_conquer_matmul`: the dimension check, then the recursion. */
  function DivideConquerMatmul(a: Mat, b: Mat, threshold: nat, parallel: bool): (r: Result<Mat>)
    requires WellFormed(a) && WellFormed(b)
    requires a.cols == b.rows ==> Descends(a.rows, a.cols, b.cols, threshold)
    ensures r.Err? <==> a.cols != b.rows
    ensures r.Err? ==> r.error == DimensionMismatch(a.rows, a.cols, b.rows, b.cols)
    ensures r.Ok? ==> r.value == Product(a, b)
  {
    if a.cols != b.rows then
      Err(DimensionMismatch(a.rows, a.cols, b.rows, b.cols))
    else
      DivideConquerCorrect(a, b, threshold, parallel);
      Ok(DivideConquerRecursive(a, b, threshold, parallel))
  }
}
