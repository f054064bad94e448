/** The value of a `Matrix`: a flat buffer in column-major order together with
    its dimensions, and the operations of rust/src/matrix.rs as functions on
    such values.  Element (row, col) lives at offset `col * rows + row`.

    All reasoning about the offset formula is confined to the first group of
    lemmas; everything after them speaks of elements through `Get`. */
module MatrixValues {

  datatype Mat = Mat(data: seq<int>, rows: nat, cols: nat)

  /** The number of elements in `cols` columns of `rows` elements each, that
      is rows * cols (lemma SizeIsProduct).  It is written as repeated
      addition so that the offset arithmetic below stays linear. */
  function Size(rows: nat, cols: nat): nat {
    if cols == 0 then 0 else Size(rows, cols - 1) + rows
  }

  /** The buffer holds exactly rows * cols elements. */
  predicate WellFormed(m: Mat) {
    |m.data| == Size(m.rows, m.cols)
  }

  predicate SameShape(x: Mat, y: Mat) {
    x.rows == y.rows && x.cols == y.cols
  }

  /** Column-major position of element (row, col): the `col` whole columns
      before it, then `row` more; that is col * rows + row (lemma OffsetFormula). */
  function Offset(rows: nat, row: nat, col: nat): nat {
    Size(rows, col) + row
  }

  // ---------------------------------------------------------------------
  // The offset formula

  lemma {:induction false} SizeIsProduct(rows: nat, cols: nat)
    ensures Size(rows, cols) == rows * cols
  {
    if cols > 0 {
      SizeIsProduct(rows, cols - 1);
    }
  }

  lemma OffsetFormula(rows: nat, row: nat, col: nat)
    ensures Offset(rows, row, col) == col * rows + row
  {
    SizeIsProduct(rows, col);
  }

  lemma {:induction false} SizeMonotone(rows: nat, c1: nat, c2: nat)
    requires c1 <= c2
    ensures Size(rows, c1) <= Size(rows, c2)
    decreases c2
  {
    if c1 < c2 {
      SizeMonotone(rows, c1, c2 - 1);
    }
  }

  /** Every in-range (row, col) has its offset inside the buffer. */
  lemma OffsetInBounds(rows: nat, cols: nat, row: nat, col: nat)
    requires row < rows && col < cols
    ensures Offset(rows, row, col) < Size(rows, cols)
  {
    SizeMonotone(rows, col + 1, cols);
  }

  /** Distinct (row, col) pairs have distinct offsets, and equal pairs equal ones. */
  lemma OffsetInjective(rows: nat, r1: nat, c1: nat, r2: nat, c2: nat)
    requires r1 < rows && r2 < rows
    ensures Offset(rows, r1, c1) == Offset(rows, r2, c2) <==> r1 == r2 && c1 == c2
  {
    if c1 < c2 {
      SizeMonotone(rows, c1 + 1, c2);
    } else if c2 < c1 {
      SizeMonotone(rows, c2 + 1, c1);
    }
  }

  /** The column of buffer position t: how many whole columns precede it. */
  function ColOf(rows: nat, t: nat): nat
    requires rows > 0
  {
    if t < rows then 0 else ColOf(rows, t - rows) + 1
  }

  /** The row of buffer position t: its distance from the start of its column. */
  function RowOf(rows: nat, t: nat): nat
    requires rows > 0
  {
    if t < rows then t else RowOf(rows, t - rows)
  }

  /** Every buffer position is the offset of the element (RowOf, ColOf): the
      offset map is onto. */
  lemma {:induction false} OffsetDecompose(rows: nat, cols: nat, t: nat)
    requires t < Size(rows, cols)
    ensures rows > 0 && RowOf(rows, t) < rows && ColOf(rows, t) < cols
    ensures Offset(rows, RowOf(rows, t), ColOf(rows, t)) == t
  {
    if t >= rows {
      OffsetDecompose(rows, cols - 1, t - rows);
    }
  }

  /** RowOf and ColOf invert the offset map. */
  lemma {:induction false} OffsetInverse(rows: nat, row: nat, col: nat)
    requires row < rows
    ensures RowOf(rows, Offset(rows, row, col)) == row
    ensures ColOf(rows, Offset(rows, row, col)) == col
  {
    if col > 0 {
      OffsetInverse(rows, row, col - 1);
    }
  }

  // ---------------------------------------------------------------------
  // Elements

  /** Element (row, col): the `Index` implementation. */
  function Get(m: Mat, row: nat, col: nat): int
    requires WellFormed(m) && row < m.rows && col < m.cols
  {
    OffsetInBounds(m.rows, m.cols, row, col);
    m.data[Offset(m.rows, row, col)]
  }

  /** Two well-formed matrices of one shape that agree on every element are
      the same value. */
  lemma Ext(x: Mat, y: Mat)
    requires WellFormed(x) && WellFormed(y) && SameShape(x, y)
    requires forall i: nat, j: nat :: i < x.rows && j < x.cols ==> Get(x, i, j) == Get(y, i, j)
    ensures x == y
  {
    forall t | 0 <= t < |x.data|
      ensures x.data[t] == y.data[t]
    {
      OffsetDecompose(x.rows, x.cols, t);
      assert Get(x, RowOf(x.rows, t), ColOf(x.rows, t)) == Get(y, RowOf(x.rows, t), ColOf(x.rows, t));
    }
  }

  /** The element that buffer position t holds in a matrix with `rows` rows
      whose element (i, j) is f(i, j), counting columns from `col`: walk down
      whole columns until t falls inside one. */
  function EntryAt(rows: nat, cols: nat, f: (nat, nat) --> int, t: nat, col: nat): int
    requires forall i: nat, j: nat :: i < rows && j < cols ==> f.requires(i, j)
    requires rows > 0 && col + ColOf(rows, t) < cols
    decreases t
  {
    if t < rows then f(t, col) else EntryAt(rows, cols, f, t - rows, col + 1)
  }

  lemma {:induction false} EntryAtOffset(rows: nat, cols: nat, f: (nat, nat) --> int, i: nat, j: nat, col: nat)
    requires forall i: nat, j: nat :: i < rows && j < cols ==> f.requires(i, j)
    requires i < rows && col + j < cols
    ensures ColOf(rows, Offset(rows, i, j)) == j
    ensures EntryAt(rows, cols, f, Offset(rows, i, j), col) == f(i, col + j)
  {
    OffsetInverse(rows, i, j);
    if j > 0 {
      EntryAtOffset(rows, cols, f, i, j - 1, col + 1);
    }
  }

  /** The matrix of the given shape whose element (i, j) is f(i, j). */
  function Build(rows: nat, cols: nat, f: (nat, nat) --> int): (m: Mat)
    requires forall i: nat, j: nat :: i < rows && j < cols ==> f.requires(i, j)
    ensures WellFormed(m) && m.rows == rows && m.cols == cols
    ensures forall i: nat, j: nat :: i < rows && j < cols ==> Get(m, i, j) == f(i, j)
  {
    var data := seq(Size(rows, cols), t requires 0 <= t < Size(rows, cols) =>
                      OffsetDecompose(rows, cols, t); EntryAt(rows, cols, f, t, 0));
    var m := Mat(data, rows, cols);
    assert forall i: nat, j: nat :: i < rows && j < cols ==> Get(m, i, j) == f(i, j) by {
      forall i: nat, j: nat | i < rows && j < cols
        ensures Get(m, i, j) == f(i, j)
      {
        OffsetInBounds(rows, cols, i, j);
        EntryAtOffset(rows, cols, f, i, j, 0);
      }
    }
    m
  }

  // ---------------------------------------------------------------------
  // The operations of matrix.rs on values

  /** The value `Matrix::new` produces: every element zero. */
  function Zero(rows: nat, cols: nat): (m: Mat)
    ensures WellFormed(m) && m.rows == rows && m.cols == cols
    ensures forall i: nat, j: nat :: i < rows && j < cols ==> Get(m, i, j) == 0
  {
    var m := Mat(seq(Size(rows, cols), _ => 0), rows, cols);
    assert forall i: nat, j: nat :: i < rows && j < cols ==> Get(m, i, j) == 0 by {
      forall i: nat, j: nat | i < rows && j < cols
        ensures Get(m, i, j) == 0
      {
        OffsetInBounds(rows, cols, i, j);
      }
    }
    m
  }

  /** x is the block of m whose top-left corner is (top, left): it lies
      inside m and every element of x is the element of m it covers. */
  predicate IsBlock(x: Mat, m: Mat, top: nat, left: nat) {
    && WellFormed(x) && WellFormed(m)
    && top + x.rows <= m.rows && left + x.cols <= m.cols
    && forall i: nat, j: nat :: i < x.rows && j < x.cols ==> Get(x, i, j) == Get(m, top + i, left + j)
  }

  /** The value `submatrix(rowStart, rowEnd, colStart, colEnd)` returns: the
      rectangle of rows [rowStart, rowEnd) and columns [colStart, colEnd),
      re-based at (0, 0). */
  function Block(m: Mat, rowStart: nat, rowEnd: nat, colStart: nat, colEnd: nat): (r: Mat)
    requires WellFormed(m) && rowStart <= rowEnd <= m.rows && colStart <= colEnd <= m.cols
    ensures r.rows == rowEnd - rowStart && r.cols == colEnd - colStart
    ensures IsBlock(r, m, rowStart, colStart)
  {
    Build(rowEnd - rowStart, colEnd - colStart,
          (i: nat, j: nat) requires i < rowEnd - rowStart && j < colEnd - colStart =>
            Get(m, rowStart + i, colStart + j))
  }

  /** s is x + y: all three of one shape, and every element of s is the sum
      of the corresponding elements of x and y. */
  predicate IsSum(s: Mat, x: Mat, y: Mat) {
    && WellFormed(s) && WellFormed(x) && WellFormed(y) && SameShape(s, x) && SameShape(x, y)
    && forall i: nat, j: nat :: i < s.rows && j < s.cols ==> Get(s, i, j) == Get(x, i, j) + Get(y, i, j)
  }

  /** s is x - y. */
  predicate IsDifference(s: Mat, x: Mat, y: Mat) {
    && WellFormed(s) && WellFormed(x) && WellFormed(y) && SameShape(s, x) && SameShape(x, y)
    && forall i: nat, j: nat :: i < s.rows && j < s.cols ==> Get(s, i, j) == Get(x, i, j) - Get(y, i, j)
  }

  /** The value `add` leaves in `self`: the buffers added position by position. */
  function MatAdd(x: Mat, y: Mat): (r: Mat)
    requires WellFormed(x) && WellFormed(y) && SameShape(x, y)
    ensures IsSum(r, x, y)
  {
    var r := Mat(seq(|x.data|, t requires 0 <= t < |x.data| => x.data[t] + y.data[t]), x.rows, x.cols);
    assert forall i: nat, j: nat :: i < x.rows && j < x.cols ==> Get(r, i, j) == Get(x, i, j) + Get(y, i, j) by {
      forall i: nat, j: nat | i < x.rows && j < x.cols
        ensures Get(r, i, j) == Get(x, i, j) + Get(y, i, j)
      {
        OffsetInBounds(x.rows, x.cols, i, j);
      }
    }
    r
  }

  /** The value `sub` leaves in `self`: the buffers subtracted position by position. */
  function MatSub(x: Mat, y: Mat): (r: Mat)
    requires WellFormed(x) && WellFormed(y) && SameShape(x, y)
    ensures IsDifference(r, x, y)
  {
    var r := Mat(seq(|x.data|, t requires 0 <= t < |x.data| => x.data[t] - y.data[t]), x.rows, x.cols);
    assert forall i: nat, j: nat :: i < x.rows && j < x.cols ==> Get(r, i, j) == Get(x, i, j) - Get(y, i, j) by {
      forall i: nat, j: nat | i < x.rows && j < x.cols
        ensures Get(r, i, j) == Get(x, i, j) - Get(y, i, j)
      {
        OffsetInBounds(x.rows, x.cols, i, j);
      }
    }
    r
  }

  /** The shapes `combine_quadrants` relies on: the top blocks share their row
      count, the bottom blocks theirs, the left blocks their column count and
      the right blocks theirs. */
  predicate QuadrantsFit(c11: Mat, c12: Mat, c21: Mat, c22: Mat) {
    && WellFormed(c11) && WellFormed(c12) && WellFormed(c21) && WellFormed(c22)
    && c11.rows == c12.rows && c21.rows == c22.rows
    && c11.cols == c21.cols && c12.cols == c22.cols
  }

  /** The element of the tiled matrix at (i, j): c11 at the top left, c12 to
      its right, c21 below it and c22 at the bottom right. */
  function QuadrantAt(c11: Mat, c12: Mat, c21: Mat, c22: Mat, i: nat, j: nat): int
    requires QuadrantsFit(c11, c12, c21, c22)
    requires i < c11.rows + c21.rows && j < c11.cols + c12.cols
  {
    if i < c11.rows then
      if j < c11.cols then Get(c11, i, j) else Get(c12, i, j - c11.cols)
    else
      if j < c11.cols then Get(c21, i - c11.rows, j) else Get(c22, i - c11.rows, j - c11.cols)
  }

  /** The value `combine_quadrants` returns: every element comes from the
      quadrant that covers its position. */
  function Assemble(c11: Mat, c12: Mat, c21: Mat, c22: Mat): (r: Mat)
    requires QuadrantsFit(c11, c12, c21, c22)
    ensures WellFormed(r)
    ensures r.rows == c11.rows + c21.rows && r.cols == c11.cols + c12.cols
    ensures forall i: nat, j: nat :: i < r.rows && j < r.cols ==>
              Get(r, i, j) == QuadrantAt(c11, c12, c21, c22, i, j)
  {
    Build(c11.rows + c21.rows, c11.cols + c12.cols,
          (i: nat, j: nat) requires i < c11.rows + c21.rows && j < c11.cols + c12.cols =>
            QuadrantAt(c11, c12, c21, c22, i, j))
  }

  // ---------------------------------------------------------------------
  // Properties of the operations

  /** Cutting the four block ranges out of `combine_quadrants`' result gives
      back the four blocks. */
  lemma SplitAssembled(c11: Mat, c12: Mat, c21: Mat, c22: Mat)
    requires QuadrantsFit(c11, c12, c21, c22)
    ensures var r := Assemble(c11, c12, c21, c22);
            && Block(r, 0, c11.rows, 0, c11.cols) == c11
            && Block(r, 0, c11.rows, c11.cols, r.cols) == c12
            && Block(r, c11.rows, r.rows, 0, c11.cols) == c21
            && Block(r, c11.rows, r.rows, c11.cols, r.cols) == c22
  {
    SplitTiled(Assemble(c11, c12, c21, c22), c11, c12, c21, c22);
  }

  /** The same, for any matrix tiled by the four blocks. */
  lemma SplitTiled(r: Mat, c11: Mat, c12: Mat, c21: Mat, c22: Mat)
    requires QuadrantsFit(c11, c12, c21, c22)
    requires WellFormed(r)
    requires r.rows == c11.rows + c21.rows && r.cols == c11.cols + c12.cols
    requires forall i: nat, j: nat :: i < r.rows && j < r.cols ==>
               Get(r, i, j) == QuadrantAt(c11, c12, c21, c22, i, j)
    ensures && Block(r, 0, c11.rows, 0, c11.cols) == c11
            && Block(r, 0, c11.rows, c11.cols, r.cols) == c12
            && Block(r, c11.rows, r.rows, 0, c11.cols) == c21
            && Block(r, c11.rows, r.rows, c11.cols, r.cols) == c22
  {
    Ext(Block(r, 0, c11.rows, 0, c11.cols), c11);
    Ext(Block(r, 0, c11.rows, c11.cols, r.cols), c12);
    Ext(Block(r, c11.rows, r.rows, 0, c11.cols), c21);
    Ext(Block(r, c11.rows, r.rows, c11.cols, r.cols), c22);
  }

  /** Splitting a matrix at any (r, c) and combining the four pieces
      reconstructs it. */
  lemma AssembleSplit(m: Mat, r: nat, c: nat)
    requires WellFormed(m) && r <= m.rows && c <= m.cols
    ensures Assemble(Block(m, 0, r, 0, c), Block(m, 0, r, c, m.cols),
                     Block(m, r, m.rows, 0, c), Block(m, r, m.rows, c, m.cols)) == m
  {
    var c11, c12 := Block(m, 0, r, 0, c), Block(m, 0, r, c, m.cols);
    var c21, c22 := Block(m, r, m.rows, 0, c), Block(m, r, m.rows, c, m.cols);
    Ext(Assemble(c11, c12, c21, c22), m);
  }
}
