/** `Matrix` (rust/src/matrix.rs): a buffer of rows * cols elements in
    column-major order, element (row, col) at col * rows + row.  The buffer is
    updated in place; the shape never changes.  Each method is specified by
    the value model: `Value()` is the `Mat` the buffer currently holds. */
module Matrices {
  import opened Errors
  import opened MatrixValues

  class Matrix {
    const data: array<int>
    const rows: nat
    const cols: nat

    ghost predicate Valid()
      reads this
    {
      data.Length == Size(rows, cols)
    }

    /** The matrix the buffer currently holds. */
    ghost function Value(): (v: Mat)
      reads this, data
      requires Valid()
      ensures WellFormed(v) && v.rows == rows && v.cols == cols
    {
      Mat(data[..], rows, cols)
    }

    /** `Matrix::new`: a rows x cols matrix of zeros. */
    constructor (rows: nat, cols: nat)
      ensures Valid() && fresh(data) && this.rows == rows && this.cols == cols
      ensures Value() == Zero(rows, cols)
    {
      this.rows := rows;
      this.cols := cols;
      SizeIsProduct(rows, cols);
      data := new int[rows * cols](_ => 0);
      new;
      assert data[..] == Zero(rows, cols).data;
    }

    /** `index`: the element at (row, col). */
    method At(row: nat, col: nat) returns (v: int)
      requires Valid() && row < rows && col < cols
      ensures v == Get(Value(), row, col)
    {
      OffsetInBounds(rows, cols, row, col);
      OffsetFormula(rows, row, col);
      v := data[col * rows + row];
    }

    /** `index_mut` followed by a store: (row, col) becomes v and every other
        element keeps its value. */
    method Set(row: nat, col: nat, v: int)
      requires Valid() && row < rows && col < cols
      modifies data
      ensures Valid()
      ensures forall i: nat, j: nat :: i < rows && j < cols ==>
                Get(Value(), i, j) == if i == row && j == col then v else Get(old(Value()), i, j)
    {
      OffsetInBounds(rows, cols, row, col);
      OffsetFormula(rows, row, col);
      data[col * rows + row] := v;
      forall i: nat, j: nat | i < rows && j < cols
        ensures Get(Value(), i, j) == if i == row && j == col then v else Get(old(Value()), i, j)
      {
        OffsetInBounds(rows, cols, i, j);
        OffsetInjective(rows, i, j, row, col);
      }
    }

    /** `submatrix`: a new matrix holding rows [rowStart, rowEnd) and columns
        [colStart, colEnd), copied element by element. */
    method Submatrix(rowStart: nat, rowEnd: nat, colStart: nat, colEnd: nat) returns (result: Matrix)
      requires Valid() && rowStart <= rowEnd <= rows && colStart <= colEnd <= cols
      ensures fresh(result) && fresh(result.data) && result.Valid()
      ensures result.Value() == Block(Value(), rowStart, rowEnd, colStart, colEnd)
    {
      var newRows, newCols := rowEnd - rowStart, colEnd - colStart;
      result := new Matrix(newRows, newCols);
      for i := 0 to newRows
        invariant fresh(result) && fresh(result.data) && result.Valid()
        invariant result.rows == newRows && result.cols == newCols
        invariant forall i': nat, j': nat :: i' < i && j' < newCols ==>
                    Get(result.Value(), i', j') == Get(Value(), rowStart + i', colStart + j')
      {
        for j := 0 to newCols
          invariant result.Valid()
          invariant forall i': nat, j': nat :: (i' < i && j' < newCols) || (i' == i && j' < j) ==>
                      Get(result.Value(), i', j') == Get(Value(), rowStart + i', colStart + j')
        {
          var x := At(rowStart + i, colStart + j);
          result.Set(i, j, x);
        }
      }
      Ext(result.Value(), Block(Value(), rowStart, rowEnd, colStart, colEnd));
    }

    /** `add`: element-wise in place addition of other.  The two shape
        assertions fail, and nothing changes, when the shapes differ. */
    method Add(other: Matrix) returns (outcome: Outcome)
      requires Valid() && other.Valid() && other.data != data
      modifies data
      ensures Valid()
      ensures !SameShape(old(Value()), other.Value()) ==> outcome == Fail(ShapeMismatch) && Value() == old(Value())
      ensures SameShape(old(Value()), other.Value()) ==>
                outcome == Pass && Value() == MatAdd(old(Value()), other.Value())
    {
      if rows != other.rows || cols != other.cols {
        return Fail(ShapeMismatch);
      }
      for t := 0 to data.Length
        invariant forall k | 0 <= k < t :: data[k] == old(data[k]) + other.data[k]
        invariant forall k | t <= k < data.Length :: data[k] == old(data[k])
      {
        data[t] := data[t] + other.data[t];
      }
      assert data[..] == MatAdd(old(Value()), other.Value()).data;
      return Pass;
    }

    /** `sub`: element-wise in place subtraction of other, with the same shape
        assertions as `add`. */
    method Sub(other: Matrix) returns (outcome: Outcome)
      requires Valid() && other.Valid() && other.data != data
      modifies data
      ensures Valid()
      ensures !SameShape(old(Value()), other.Value()) ==> outcome == Fail(ShapeMismatch) && Value() == old(Value())
      ensures SameShape(old(Value()), other.Value()) ==>
                outcome == Pass && Value() == MatSub(old(Value()), other.Value())
    {
      if rows != other.rows || cols != other.cols {
        return Fail(ShapeMismatch);
      }
      for t := 0 to data.Length
        invariant forall k | 0 <= k < t :: data[k] == old(data[k]) - other.data[k]
        invariant forall k | t <= k < data.Length :: data[k] == old(data[k])
      {
        data[t] := data[t] - other.data[t];
      }
      assert data[..] == MatSub(old(Value()), other.Value()).data;
      return Pass;
    }

    /** One of the four copy loops of `combine_quadrants`: src goes into the
        block whose top-left corner is (top, left); the rest is untouched. */
    method CopyBlock(src: Matrix, top: nat, left: nat)
      requires Valid() && src.Valid() && src.data != data
      requires top + src.rows <= rows && left + src.cols <= cols
      modifies data
      ensures Valid()
      ensures forall i: nat, j: nat :: i < rows && j < cols ==>
                Get(Value(), i, j)
                == if top <= i < top + src.rows && left <= j < left + src.cols
                   then Get(src.Value(), i - top, j - left)
                   else Get(old(Value()), i, j)
    {
      for i := 0 to src.rows
        invariant Valid()
        invariant forall i': nat, j': nat :: i' < rows && j' < cols ==>
                    Get(Value(), i', j')
                    == if top <= i' < top + i && left <= j' < left + src.cols
                       then Get(src.Value(), i' - top, j' - left)
                       else Get(old(Value()), i', j')
      {
        for j := 0 to src.cols
          invariant Valid()
          invariant forall i': nat, j': nat :: i' < rows && j' < cols ==>
                      Get(Value(), i', j')
                      == if (top <= i' < top + i && left <= j' < left + src.cols)
                            || (i' == top + i && left <= j' < left + j)
                         then Get(src.Value(), i' - top, j' - left)
                         else Get(old(Value()), i', j')
        {
          var x := src.At(i, j);
          Set(top + i, left + j, x);
        }
      }
    }

    /** `combine_quadrants`: a new matrix with c11 at the top left, c12 to its
        right, c21 below it and c22 at the bottom right. */
    static method CombineQuadrants(c11: Matrix, c12: Matrix, c21: Matrix, c22: Matrix) returns (result: Matrix)
      requires c11.Valid() && c12.Valid() && c21.Valid() && c22.Valid()
      requires QuadrantsFit(c11.Value(), c12.Value(), c21.Value(), c22.Value())
      ensures fresh(result) && fresh(result.data) && result.Valid()
      ensures result.Value() == Assemble(c11.Value(), c12.Value(), c21.Value(), c22.Value())
    {
      var rowsTop, rowsBottom := c11.rows, c21.rows;
      var colsLeft, colsRight := c11.cols, c12.cols;
      result := new Matrix(rowsTop + rowsBottom, colsLeft + colsRight);
      result.CopyBlock(c11, 0, 0);
      ghost var v1 := result.Value();
      result.CopyBlock(c12, 0, colsLeft);
      ghost var v2 := result.Value();
      result.CopyBlock(c21, rowsTop, 0);
      ghost var v3 := result.Value();
      result.CopyBlock(c22, rowsTop, colsLeft);
      ghost var r, q11, q12, q21, q22 := result.Value(), c11.Value(), c12.Value(), c21.Value(), c22.Value();
      forall i: nat, j: nat | i < r.rows && j < r.cols
        ensures Get(r, i, j) == QuadrantAt(q11, q12, q21, q22, i, j)
      {
        if i < rowsTop && j < colsLeft {
          assert Get(r, i, j) == Get(v3, i, j) == Get(v2, i, j) == Get(v1, i, j);
        } else if i < rowsTop {
          assert Get(r, i, j) == Get(v3, i, j) == Get(v2, i, j);
        } else if j < colsLeft {
          assert Get(r, i, j) == Get(v3, i, j);
        }
      }
      Ext(r, Assemble(q11, q12, q21, q22));
    }
  }
}
