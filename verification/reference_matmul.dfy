/** `reference_matmul` (rust/src/test.rs), the product the tests compare the
    fast algorithms against: the triple loop in row order (i outermost, then
    j, then k innermost), each element accumulated to completion in turn. */
module Reference {
  import opened MatrixValues
  import opened Products
  import opened Matrices

  /** The loops read a(i, k) and b(k, j) for k < a.cols, so B must have
      a.cols rows: there is no dimension check. */
  method ReferenceMatmul(a: Matrix, b: Matrix) returns (c: Matrix)
    requires a.Valid() && b.Valid() && a.cols == b.rows
    ensures fresh(c) && fresh(c.data)
    ensures c.Valid() && c.Value() == Product(a.Value(), b.Value())
  {
    var m, n, p := a.rows, a.cols, b.cols;
    c := new Matrix(m, p);
    ghost var A, B := a.Value(), b.Value();
    for i := 0 to m
      invariant fresh(c.data) && c.Valid() && c.rows == m && c.cols == p
      invariant forall i': nat, j': nat :: i' < m && j' < p ==>
                  Get(c.Value(), i', j') == if i' < i then Dot(A, B, i', j', n) else 0
    {
      for j := 0 to p
        invariant c.Valid()
        invariant forall i': nat, j': nat :: i' < m && j' < p ==>
                    Get(c.Value(), i', j')
                    == if i' < i || (i' == i && j' < j) then Dot(A, B, i', j', n) else 0
      {
        for k := 0 to n
          invariant c.Valid()
          invariant forall i': nat, j': nat :: i' < m && j' < p ==>
                      Get(c.Value(), i', j')
                      == if i' < i || (i' == i && j' < j) then Dot(A, B, i', j', n)
                         else if i' == i && j' == j then Dot(A, B, i', j', k)
                         else 0
        {
          var cij := c.At(i, j);
          var aik := a.At(i, k);
          var bkj := b.At(k, j);
          c.Set(i, j, cij + aik * bkj);
        }
      }
    }
    Ext(c.Value(), Product(A, B));
  }
}
