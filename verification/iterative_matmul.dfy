/** `iterative_matmul` (rust/src/iterative_matmul.rs): the triple loop in
    column-major order (j outermost, then k, then i innermost), accumulating
    every product a(i, k) * b(k, j) into c(i, j) in place. */
module Iterative {
  import opened Errors
  import opened MatrixValues
  import opened Products
  import opened Matrices

  /** The dimension check, then the j-k-i loops.  A mismatch of the inner
      dimensions is the panic, with the four dimensions it reports. */
  method IterativeMatmul(a: Matrix, b: Matrix) returns (r: Result<Matrix>)
    requires a.Valid() && b.Valid()
    ensures r.Err? <==> a.cols != b.rows
    ensures r.Err? ==> r.error == DimensionMismatch(a.rows, a.cols, b.rows, b.cols)
    ensures r.Ok? ==> fresh(r.value) && fresh(r.value.data)
    ensures r.Ok? ==> r.value.Valid() && r.value.Value() == Product(a.Value(), b.Value())
  {
    var m, n, q, p := a.rows, a.cols, b.rows, b.cols;
    if n != q {
      return Err(DimensionMismatch(m, n, q, p));
    }
    var c := new Matrix(m, p);
    ghost var A, B := a.Value(), b.Value();
    for j := 0 to p
      invariant fresh(c.data) && c.Valid() && c.rows == m && c.cols == p
      invariant forall i': nat, j': nat :: i' < m && j' < p ==>
                  Get(c.Value(), i', j') == if j' < j then Dot(A, B, i', j', n) else 0
    {
      for k := 0 to n
        invariant c.Valid()
        invariant forall i': nat, j': nat :: i' < m && j' < p ==>
                    Get(c.Value(), i', j')
                    == if j' < j then Dot(A, B, i', j', n) else if j' == j then Dot(A, B, i', j', k) else 0
      {
        for i := 0 to m
          invariant c.Valid()
          invariant forall i': nat, j': nat :: i' < m && j' < p ==>
                      Get(c.Value(), i', j')
                      == if j' < j then Dot(A, B, i', j', n)
                         else if j' == j then (if i' < i then Dot(A, B, i', j', k + 1) else Dot(A, B, i', j', k))
                         else 0
        {
          var cij := c.At(i, j);
          var aik := a.At(i, k);
          var bkj := b.At(k, j);
          c.Set(i, j, cij + aik * bkj);
        }
      }
    }
    Ext(c.Value(), Product(A, B));
    return Ok(c);
  }
}
