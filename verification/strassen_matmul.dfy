/** Strassen multiplication (rust/src/strassen_matmul.rs): split A and B into
    quadrants, form seven products of sums and differences of quadrants
    recursively, and recombine them into the four quadrants of the result.
    The value model is used throughout: every sum, difference and product is
    a fresh matrix, as the comments listing M1..M7 and C11..C22 describe. */
module Strassen {
  import opened Errors
  import opened MatrixValues
  import opened Products

  /** Every level of the recursion that does not stop at the threshold has
      even m, n and p, so that its quadrants all have one shape. */
  predicate EvenAbove(m: nat, n: nat, p: nat, threshold: nat)
    decreases m
  {
    || m <= threshold || n <= threshold || p <= threshold
    || (m % 2 == 0 && n % 2 == 0 && p % 2 == 0 && EvenAbove(m / 2, n / 2, p / 2, threshold))
  }

  /** Four well-formed quadrants of one shape. */
  predicate Quartered(x11: Mat, x12: Mat, x21: Mat, x22: Mat) {
    && WellFormed(x11) && WellFormed(x12) && WellFormed(x21) && WellFormed(x22)
    && SameShape(x11, x12) && SameShape(x11, x21) && SameShape(x11, x22)
  }

  /** The quadrants of an even split of A (mh x nh each) and of B (nh x ph
      each), none of them empty. */
  predicate EvenQuadrants(a11: Mat, a12: Mat, a21: Mat, a22: Mat, b11: Mat, b12: Mat, b21: Mat, b22: Mat) {
    && Quartered(a11, a12, a21, a22) && Quartered(b11, b12, b21, b22)
    && a11.cols == b11.rows && a11.rows >= 1 && a11.cols >= 1 && b11.cols >= 1
  }

  /** The operands of M1..M7, in the order the parallel branch lists them. */
  function Operands(a11: Mat, a12: Mat, a21: Mat, a22: Mat,
                    b11: Mat, b12: Mat, b21: Mat, b22: Mat): (s: seq<(Mat, Mat)>)
    requires EvenQuadrants(a11, a12, a21, a22, b11, b12, b21, b22)
    ensures |s| == 7
    ensures forall i | 0 <= i < 7 ::
              && Composable(s[i].0, s[i].1)
              && s[i].0.rows == a11.rows && s[i].0.cols == a11.cols && s[i].1.cols == b11.cols
  {
    [ (MatAdd(a11, a22), MatAdd(b11, b22)),
      (MatAdd(a21, a22), b11),
      (a11, MatSub(b12, b22)),
      (a22, MatSub(b21, b11)),
      (MatAdd(a11, a12), b22),
      (MatSub(a21, a11), MatAdd(b11, b12)),
      (MatSub(a12, a22), MatAdd(b21, b22)) ]
  }

  /** The recombination C11 = M1 + M4 - M5 + M7, C12 = M3 + M5,
      C21 = M2 + M4, C22 = M1 - M2 + M3 + M6, tiled into the result. */
  function Recombine(m1: Mat, m2: Mat, m3: Mat, m4: Mat, m5: Mat, m6: Mat, m7: Mat): (c: Mat)
    requires WellFormed(m1) && WellFormed(m2) && WellFormed(m3) && WellFormed(m4)
    requires WellFormed(m5) && WellFormed(m6) && WellFormed(m7)
    requires SameShape(m1, m2) && SameShape(m1, m3) && SameShape(m1, m4)
    requires SameShape(m1, m5) && SameShape(m1, m6) && SameShape(m1, m7)
    ensures WellFormed(c) && c.rows == 2 * m1.rows && c.cols == 2 * m1.cols
  {
    Assemble(MatAdd(MatSub(MatAdd(m1, m4), m5), m7),
             MatAdd(m3, m5),
             MatAdd(m2, m4),
             MatAdd(MatAdd(MatSub(m1, m2), m3), m6))
  }

  /** `strassen_recursive`.  Below the threshold it is the iterative product.
      Above it, the first operation on quadrants, `a11.add(&a22)` and then
      `b11.add(&b22)`, asserts equal rows and columns; that fails exactly when
      m, n or p is odd, and the failure ends the whole computation. */
  function StrassenRecursive(a: Mat, b: Mat, threshold: nat, parallel: bool): (r: Result<Mat>)
    requires Composable(a, b)
    ensures r.Ok? ==> WellFormed(r.value) && r.value.rows == a.rows && r.value.cols == b.cols
    ensures r.Err? ==> r.error == ShapeMismatch
    decreases a.rows + a.cols + b.cols, 2
  {
    var m, n, p := a.rows, a.cols, b.cols;
    if m <= threshold || n <= threshold || p <= threshold then
      Ok(Product(a, b))
    else
      var mh, nh, ph := m / 2, n / 2, p / 2;
      var a11, a12 := Block(a, 0, mh, 0, nh), Block(a, 0, mh, nh, n);
      var a21, a22 := Block(a, mh, m, 0, nh), Block(a, mh, m, nh, n);
      var b11, b12 := Block(b, 0, nh, 0, ph), Block(b, 0, nh, ph, p);
      var b21, b22 := Block(b, nh, n, 0, ph), Block(b, nh, n, ph, p);
      if !(SameShape(a11, a22) && SameShape(b11, b22)) then
        Err(ShapeMismatch)
      else
        SevenProducts(a11, a12, a21, a22, b11, b12, b21, b22, threshold, parallel)
  }

  /** M1..M7 and their recombination, by the branch `parallel` selects. */
  function SevenProducts(a11: Mat, a12: Mat, a21: Mat, a22: Mat,
                         b11: Mat, b12: Mat, b21: Mat, b22: Mat,
                         threshold: nat, parallel: bool): (r: Result<Mat>)
    requires EvenQuadrants(a11, a12, a21, a22, b11, b12, b21, b22)
    ensures r.Ok? ==> WellFormed(r.value) && r.value.rows == 2 * a11.rows && r.value.cols == 2 * b11.cols
    ensures r.Err? ==> r.error == ShapeMismatch
    decreases 2 * a11.rows + 2 * a11.cols + 2 * b11.cols, 1
  {
    if parallel then ParallelProducts(a11, a12, a21, a22, b11, b12, b21, b22, threshold)
    else SequentialProducts(a11, a12, a21, a22, b11, b12, b21, b22, threshold)
  }

  /** The parallel branch: the seven operand pairs mapped through the
      recursion, the i-th result from the i-th pair; a failure in any of them
      is the failure of the whole. */
  function ParallelProducts(a11: Mat, a12: Mat, a21: Mat, a22: Mat,
                            b11: Mat, b12: Mat, b21: Mat, b22: Mat, threshold: nat): (r: Result<Mat>)
    requires EvenQuadrants(a11, a12, a21, a22, b11, b12, b21, b22)
    ensures r.Ok? ==> WellFormed(r.value) && r.value.rows == 2 * a11.rows && r.value.cols == 2 * b11.cols
    ensures r.Err? ==> r.error == ShapeMismatch
    decreases 2 * a11.rows + 2 * a11.cols + 2 * b11.cols, 0
  {
    var inputs := Operands(a11, a12, a21, a22, b11, b12, b21, b22);
    var results := seq(7, i requires 0 <= i < 7 => StrassenRecursive(inputs[i].0, inputs[i].1, threshold, true));
    if forall i | 0 <= i < 7 :: results[i].Ok? then
      Ok(Recombine(results[0].value, results[1].value, results[2].value, results[3].value,
                   results[4].value, results[5].value, results[6].value))
    else
      Err(ShapeMismatch)
  }

  /** The sequential branch: M1..M7 one after the other. */
  function SequentialProducts(a11: Mat, a12: Mat, a21: Mat, a22: Mat,
                              b11: Mat, b12: Mat, b21: Mat, b22: Mat, threshold: nat): (r: Result<Mat>)
    requires EvenQuadrants(a11, a12, a21, a22, b11, b12, b21, b22)
    ensures r.Ok? ==> WellFormed(r.value) && r.value.rows == 2 * a11.rows && r.value.cols == 2 * b11.cols
    ensures r.Err? ==> r.error == ShapeMismatch
    decreases 2 * a11.rows + 2 * a11.cols + 2 * b11.cols, 0
  {
    var m1 :- StrassenRecursive(MatAdd(a11, a22), MatAdd(b11, b22), threshold, false);
    var m2 :- StrassenRecursive(MatAdd(a21, a22), b11, threshold, false);
    var m3 :- StrassenRecursive(a11, MatSub(b12, b22), threshold, false);
    var m4 :- StrassenRecursive(a22, MatSub(b21, b11), threshold, false);
    var m5 :- StrassenRecursive(MatAdd(a11, a12), b22, threshold, false);
    var m6 :- StrassenRecursive(MatSub(a21, a11), MatAdd(b11, b12), threshold, false);
    var m7 :- StrassenRecursive(MatSub(a12, a22), MatAdd(b21, b22), threshold, false);
    Ok(Recombine(m1, m2, m3, m4, m5, m6, m7))
  }

  // ---------------------------------------------------------------------
  // Strassen's identities, element by element

  /** The seven products, each given by what it is the product of. */
  predicate StrassenProducts(a11: Mat, a12: Mat, a21: Mat, a22: Mat, b11: Mat, b12: Mat, b21: Mat, b22: Mat,
                             m1: Mat, m2: Mat, m3: Mat, m4: Mat, m5: Mat, m6: Mat, m7: Mat)
    requires EvenQuadrants(a11, a12, a21, a22, b11, b12, b21, b22)
  {
    && IsProduct(m1, MatAdd(a11, a22), MatAdd(b11, b22))
    && IsProduct(m2, MatAdd(a21, a22), b11)
    && IsProduct(m3, a11, MatSub(b12, b22))
    && IsProduct(m4, a22, MatSub(b21, b11))
    && IsProduct(m5, MatAdd(a11, a12), b22)
    && IsProduct(m6, MatSub(a21, a11), MatAdd(b11, b12))
    && IsProduct(m7, MatSub(a12, a22), MatAdd(b21, b22))
  }

  /** M1 + M4 - M5 + M7 = A11 B11 + A12 B21 at (i, j). */
  lemma TopLeftAt(a11: Mat, a12: Mat, a21: Mat, a22: Mat, b11: Mat, b12: Mat, b21: Mat, b22: Mat,
                  m1: Mat, m4: Mat, m5: Mat, m7: Mat, i: nat, j: nat)
    requires EvenQuadrants(a11, a12, a21, a22, b11, b12, b21, b22)
    requires IsProduct(m1, MatAdd(a11, a22), MatAdd(b11, b22))
    requires IsProduct(m4, a22, MatSub(b21, b11))
    requires IsProduct(m5, MatAdd(a11, a12), b22)
    requires IsProduct(m7, MatSub(a12, a22), MatAdd(b21, b22))
    requires i < a11.rows && j < b11.cols
    ensures Get(m1, i, j) + Get(m4, i, j) - Get(m5, i, j) + Get(m7, i, j)
            == Dot(a11, b11, i, j, a11.cols) + Dot(a12, b21, i, j, a11.cols)
  {
    var h := a11.cols;
    var s1, t1 := MatAdd(a11, a22), MatAdd(b11, b22);
    DotAddLeft(s1, a11, a22, t1, i, j, h);
    DotAddRight(a11, t1, b11, b22, i, j, h);
    DotAddRight(a22, t1, b11, b22, i, j, h);
    DotSubRight(a22, MatSub(b21, b11), b21, b11, i, j, h);
    DotAddLeft(MatAdd(a11, a12), a11, a12, b22, i, j, h);
    var s7, t7 := MatSub(a12, a22), MatAdd(b21, b22);
    DotSubLeft(s7, a12, a22, t7, i, j, h);
    DotAddRight(a12, t7, b21, b22, i, j, h);
    DotAddRight(a22, t7, b21, b22, i, j, h);
  }

  /** M3 + M5 = A11 B12 + A12 B22 at (i, j). */
  lemma TopRightAt(a11: Mat, a12: Mat, a21: Mat, a22: Mat, b11: Mat, b12: Mat, b21: Mat, b22: Mat,
                   m3: Mat, m5: Mat, i: nat, j: nat)
    requires EvenQuadrants(a11, a12, a21, a22, b11, b12, b21, b22)
    requires IsProduct(m3, a11, MatSub(b12, b22))
    requires IsProduct(m5, MatAdd(a11, a12), b22)
    requires i < a11.rows && j < b11.cols
    ensures Get(m3, i, j) + Get(m5, i, j) == Dot(a11, b12, i, j, a11.cols) + Dot(a12, b22, i, j, a11.cols)
  {
    var h := a11.cols;
    DotSubRight(a11, MatSub(b12, b22), b12, b22, i, j, h);
    DotAddLeft(MatAdd(a11, a12), a11, a12, b22, i, j, h);
  }

  /** M2 + M4 = A21 B11 + A22 B21 at (i, j). */
  lemma BottomLeftAt(a11: Mat, a12: Mat, a21: Mat, a22: Mat, b11: Mat, b12: Mat, b21: Mat, b22: Mat,
                     m2: Mat, m4: Mat, i: nat, j: nat)
    requires EvenQuadrants(a11, a12, a21, a22, b11, b12, b21, b22)
    requires IsProduct(m2, MatAdd(a21, a22), b11)
    requires IsProduct(m4, a22, MatSub(b21, b11))
    requires i < a11.rows && j < b11.cols
    ensures Get(m2, i, j) + Get(m4, i, j) == Dot(a21, b11, i, j, a11.cols) + Dot(a22, b21, i, j, a11.cols)
  {
    var h := a11.cols;
    DotAddLeft(MatAdd(a21, a22), a21, a22, b11, i, j, h);
    DotSubRight(a22, MatSub(b21, b11), b21, b11, i, j, h);
  }

  /** M1 - M2 + M3 + M6 = A21 B12 + A22 B22 at (i, j). */
  lemma BottomRightAt(a11: Mat, a12: Mat, a21: Mat, a22: Mat, b11: Mat, b12: Mat, b21: Mat, b22: Mat,
                      m1: Mat, m2: Mat, m3: Mat, m6: Mat, i: nat, j: nat)
    requires EvenQuadrants(a11, a12, a21, a22, b11, b12, b21, b22)
    requires IsProduct(m1, MatAdd(a11, a22), MatAdd(b11, b22))
    requires IsProduct(m2, MatAdd(a21, a22), b11)
    requires IsProduct(m3, a11, MatSub(b12, b22))
    requires IsProduct(m6, MatSub(a21, a11), MatAdd(b11, b12))
    requires i < a11.rows && j < b11.cols
    ensures Get(m1, i, j) - Get(m2, i, j) + Get(m3, i, j) + Get(m6, i, j)
            == Dot(a21, b12, i, j, a11.cols) + Dot(a22, b22, i, j, a11.cols)
  {
    var h := a11.cols;
    var s1, t1 := MatAdd(a11, a22), MatAdd(b11, b22);
    DotAddLeft(s1, a11, a22, t1, i, j, h);
    DotAddRight(a11, t1, b11, b22, i, j, h);
    DotAddRight(a22, t1, b11, b22, i, j, h);
    DotAddLeft(MatAdd(a21, a22), a21, a22, b11, i, j, h);
    DotSubRight(a11, MatSub(b12, b22), b12, b22, i, j, h);
    var s6, t6 := MatSub(a21, a11), MatAdd(b11, b12);
    DotSubLeft(s6, a21, a11, t6, i, j, h);
    DotAddRight(a21, t6, b11, b12, i, j, h);
    DotAddRight(a11, t6, b11, b12, i, j, h);
  }

  /** The recombination of the seven products is the block sum of the exact
      quadrant products. */
  lemma RecombineCorrect(a11: Mat, a12: Mat, a21: Mat, a22: Mat, b11: Mat, b12: Mat, b21: Mat, b22: Mat,
                         m1: Mat, m2: Mat, m3: Mat, m4: Mat, m5: Mat, m6: Mat, m7: Mat)
    requires EvenQuadrants(a11, a12, a21, a22, b11, b12, b21, b22)
    requires StrassenProducts(a11, a12, a21, a22, b11, b12, b21, b22, m1, m2, m3, m4, m5, m6, m7)
    ensures Recombine(m1, m2, m3, m4, m5, m6, m7)
            == BlockSum(a11, a12, a21, a22, b11, b12, b21, b22)
  {
    var c11, d11 := MatAdd(MatSub(MatAdd(m1, m4), m5), m7), MatAdd(Product(a11, b11), Product(a12, b21));
    forall i: nat, j: nat | i < c11.rows && j < c11.cols
      ensures Get(c11, i, j) == Get(d11, i, j)
    {
      TopLeftAt(a11, a12, a21, a22, b11, b12, b21, b22, m1, m4, m5, m7, i, j);
    }
    Ext(c11, d11);
    var c12, d12 := MatAdd(m3, m5), MatAdd(Product(a11, b12), Product(a12, b22));
    forall i: nat, j: nat | i < c12.rows && j < c12.cols
      ensures Get(c12, i, j) == Get(d12, i, j)
    {
      TopRightAt(a11, a12, a21, a22, b11, b12, b21, b22, m3, m5, i, j);
    }
    Ext(c12, d12);
    var c21, d21 := MatAdd(m2, m4), MatAdd(Product(a21, b11), Product(a22, b21));
    forall i: nat, j: nat | i < c21.rows && j < c21.cols
      ensures Get(c21, i, j) == Get(d21, i, j)
    {
      BottomLeftAt(a11, a12, a21, a22, b11, b12, b21, b22, m2, m4, i, j);
    }
    Ext(c21, d21);
    var c22, d22 := MatAdd(MatAdd(MatSub(m1, m2), m3), m6), MatAdd(Product(a21, b12), Product(a22, b22));
    forall i: nat, j: nat | i < c22.rows && j < c22.cols
      ensures Get(c22, i, j) == Get(d22, i, j)
    {
      BottomRightAt(a11, a12, a21, a22, b11, b12, b21, b22, m1, m2, m3, m6, i, j);
    }
    Ext(c22, d22);
  }

  // ---------------------------------------------------------------------
  // Correctness of the recursion

  /** Strassen's recursion succeeds exactly when every level above the
      threshold splits evenly, and then computes A * B, whether or not it
      runs in parallel. */
  lemma {:induction false} StrassenCorrect(a: Mat, b: Mat, threshold: nat, parallel: bool)
    requires Composable(a, b)
    ensures var r := StrassenRecursive(a, b, threshold, parallel);
            && (r.Ok? <==> EvenAbove(a.rows, a.cols, b.cols, threshold))
            && (r.Ok? ==> r.value == Product(a, b))
    decreases a.rows + a.cols + b.cols, 2
  {
    var m, n, p := a.rows, a.cols, b.cols;
    if !(m <= threshold || n <= threshold || p <= threshold) {
      var mh, nh, ph := m / 2, n / 2, p / 2;
      var a11, a12 := Block(a, 0, mh, 0, nh), Block(a, 0, mh, nh, n);
      var a21, a22 := Block(a, mh, m, 0, nh), Block(a, mh, m, nh, n);
      var b11, b12 := Block(b, 0, nh, 0, ph), Block(b, 0, nh, ph, p);
      var b21, b22 := Block(b, nh, n, 0, ph), Block(b, nh, n, ph, p);
      assert SameShape(a11, a22) && SameShape(b11, b22) <==> m % 2 == 0 && n % 2 == 0 && p % 2 == 0;
      if SameShape(a11, a22) && SameShape(b11, b22) {
        assert StrassenRecursive(a, b, threshold, parallel)
               == SevenProducts(a11, a12, a21, a22, b11, b12, b21, b22, threshold, parallel);
        SevenProductsCorrect(a11, a12, a21, a22, b11, b12, b21, b22, threshold, parallel);
        BlockProduct(a, b, mh, nh, ph);
      } else {
        assert StrassenRecursive(a, b, threshold, parallel) == Err(ShapeMismatch);
      }
    }
  }

  lemma {:induction false} SevenProductsCorrect(a11: Mat, a12: Mat, a21: Mat, a22: Mat,
                                                b11: Mat, b12: Mat, b21: Mat, b22: Mat,
                                                threshold: nat, parallel: bool)
    requires EvenQuadrants(a11, a12, a21, a22, b11, b12, b21, b22)
    ensures var r := SevenProducts(a11, a12, a21, a22, b11, b12, b21, b22, threshold, parallel);
            && (r.Ok? <==> EvenAbove(a11.rows, a11.cols, b11.cols, threshold))
            && (r.Ok? ==> r.value == BlockSum(a11, a12, a21, a22, b11, b12, b21, b22))
    decreases 2 * a11.rows + 2 * a11.cols + 2 * b11.cols, 1
  {
    if parallel {
      ParallelProductsCorrect(a11, a12, a21, a22, b11, b12, b21, b22, threshold);
    } else {
      SequentialProductsCorrect(a11, a12, a21, a22, b11, b12, b21, b22, threshold);
    }
  }

  lemma {:induction false} ParallelProductsCorrect(a11: Mat, a12: Mat, a21: Mat, a22: Mat,
                                                   b11: Mat, b12: Mat, b21: Mat, b22: Mat, threshold: nat)
    requires EvenQuadrants(a11, a12, a21, a22, b11, b12, b21, b22)
    ensures var r := ParallelProducts(a11, a12, a21, a22, b11, b12, b21, b22, threshold);
            && (r.Ok? <==> EvenAbove(a11.rows, a11.cols, b11.cols, threshold))
            && (r.Ok? ==> r.value == BlockSum(a11, a12, a21, a22, b11, b12, b21, b22))
    decreases 2 * a11.rows + 2 * a11.cols + 2 * b11.cols, 0
  {
    var inputs := Operands(a11, a12, a21, a22, b11, b12, b21, b22);
    var results := seq(7, i requires 0 <= i < 7 => StrassenRecursive(inputs[i].0, inputs[i].1, threshold, true));
    forall i | 0 <= i < 7
      ensures results[i].Ok? <==> EvenAbove(a11.rows, a11.cols, b11.cols, threshold)
      ensures results[i].Ok? ==> IsProduct(results[i].value, inputs[i].0, inputs[i].1)
    {
      StrassenCorrect(inputs[i].0, inputs[i].1, threshold, true);
    }
    var ok := EvenAbove(a11.rows, a11.cols, b11.cols, threshold);
    ResultsAreProducts(a11, a12, a21, a22, b11, b12, b21, b22, results, ok);
    if ok {
      RecombineCorrect(a11, a12, a21, a22, b11, b12, b21, b22,
                       results[0].value, results[1].value, results[2].value, results[3].value,
                       results[4].value, results[5].value, results[6].value);
    }
  }

  /** Seven results that succeed together, each the product of its operand
      pair, are M1..M7. */
  lemma ResultsAreProducts(a11: Mat, a12: Mat, a21: Mat, a22: Mat, b11: Mat, b12: Mat, b21: Mat, b22: Mat,
                           results: seq<Result<Mat>>, ok: bool)
    requires EvenQuadrants(a11, a12, a21, a22, b11, b12, b21, b22) && |results| == 7
    requires forall i | 0 <= i < 7 :: results[i].Ok? <==> ok
    requires forall i | 0 <= i < 7 :: results[i].Ok? ==>
               IsProduct(results[i].value, Operands(a11, a12, a21, a22, b11, b12, b21, b22)[i].0,
                         Operands(a11, a12, a21, a22, b11, b12, b21, b22)[i].1)
    ensures (forall i | 0 <= i < 7 :: results[i].Ok?) <==> ok
    ensures ok ==> StrassenProducts(a11, a12, a21, a22, b11, b12, b21, b22,
                                    results[0].value, results[1].value, results[2].value, results[3].value,
                                    results[4].value, results[5].value, results[6].value)
  {
    if ok {
      var inputs := Operands(a11, a12, a21, a22, b11, b12, b21, b22);
      assert IsProduct(results[0].value, inputs[0].0, inputs[0].1);
      assert IsProduct(results[1].value, inputs[1].0, inputs[1].1);
      assert IsProduct(results[2].value, inputs[2].0, inputs[2].1);
      assert IsProduct(results[3].value, inputs[3].0, inputs[3].1);
      assert IsProduct(results[4].value, inputs[4].0, inputs[4].1);
      assert IsProduct(results[5].value, inputs[5].0, inputs[5].1);
      assert IsProduct(results[6].value, inputs[6].0, inputs[6].1);
    } else {
      assert !results[0].Ok?;
    }
  }

  lemma {:induction false} SequentialProductsCorrect(a11: Mat, a12: Mat, a21: Mat, a22: Mat,
                                                     b11: Mat, b12: Mat, b21: Mat, b22: Mat, threshold: nat)
    requires EvenQuadrants(a11, a12, a21, a22, b11, b12, b21, b22)
    ensures var r := SequentialProducts(a11, a12, a21, a22, b11, b12, b21, b22, threshold);
            && (r.Ok? <==> EvenAbove(a11.rows, a11.cols, b11.cols, threshold))
            && (r.Ok? ==> r.value == BlockSum(a11, a12, a21, a22, b11, b12, b21, b22))
    decreases 2 * a11.rows + 2 * a11.cols + 2 * b11.cols, 0
  {
    StrassenCorrect(MatAdd(a11, a22), MatAdd(b11, b22), threshold, false);
    StrassenCorrect(MatAdd(a21, a22), b11, threshold, false);
    StrassenCorrect(a11, MatSub(b12, b22), threshold, false);
    StrassenCorrect(a22, MatSub(b21, b11), threshold, false);
    StrassenCorrect(MatAdd(a11, a12), b22, threshold, false);
    StrassenCorrect(MatSub(a21, a11), MatAdd(b11, b12), threshold, false);
    StrassenCorrect(MatSub(a12, a22), MatAdd(b21, b22), threshold, false);
    if EvenAbove(a11.rows, a11.cols, b11.cols, threshold) {
      RecombineCorrect(a11, a12, a21, a22, b11, b12, b21, b22,
                       Product(MatAdd(a11, a22), MatAdd(b11, b22)),
                       Product(MatAdd(a21, a22), b11),
                       Product(a11, MatSub(b12, b22)),
                       Product(a22, MatSub(b21, b11)),
                       Product(MatAdd(a11, a12), b22),
                       Product(MatSub(a21, a11), MatAdd(b11, b12)),
                       Product(MatSub(a12, a22), MatAdd(b21, b22)));
    }
  }

  /** The parallel and the sequential branch agree: both fail or both give
      the same matrix. */
  lemma ParallelMatchesSequential(a: Mat, b: Mat, threshold: nat)
    requires Composable(a, b)
    ensures StrassenRecursive(a, b, threshold, true) == StrassenRecursive(a, b, threshold, false)
  {
    StrassenCorrect(a, b, threshold, true);
    StrassenCorrect(a, b, threshold, false);
  }

  /** `strassen_matmul`: the dimension check, then the recursion, whose only
      failure is an uneven split above the threshold. */
  function StrassenMatmul(a: Mat, b: Mat, threshold: nat, parallel: bool): (r: Result<Mat>)
    requires WellFormed(a) && WellFormed(b)
    ensures a.cols != b.rows ==> r == Err(DimensionMismatch(a.rows, a.cols, b.rows, b.cols))
    ensures a.cols == b.rows ==> (r.Ok? <==> EvenAbove(a.rows, a.cols, b.cols, threshold))
    ensures a.cols == b.rows && r.Err? ==> r.error == ShapeMismatch
    ensures r.Ok? ==> a.cols == b.rows && r.value == Product(a, b)
  {
    if a.cols != b.rows then
      Err(DimensionMismatch(a.rows, a.cols, b.rows, b.cols))
    else
      StrassenCorrect(a, b, threshold, parallel);
      StrassenRecursive(a, b, threshold, parallel)
  }
}
