# Verified model of the matmul-bench multiplication core

This Dafny project models the Rust core of matmul-bench. That core is:

- a column-major `Matrix` type;
- three ways to multiply two matrices: the iterative triple loop, divide-and-conquer with eight recursive quadrant products, and Strassen's algorithm with seven.

It proves that each algorithm computes the matrix product C(i, j) = Σ_k A(i, k) · B(k, j) on exact integers, whether the parallel or the sequential branch runs:

- divide-and-conquer for every threshold ≥ 1 (and for any threshold when a dimension is empty);
- Strassen whenever its recursion succeeds, which it does exactly when every level above the threshold has even dimensions.

Files:

- `errors.dfy` (`Errors`): the panics of the code, as error values: `DimensionMismatch(m, n, q, p)` for the entry checks and `ShapeMismatch` for the `assert_eq!` in `add`/`sub`.
- `matrix_values.dfy` (`MatrixValues`): the value of a matrix, `Mat(data, rows, cols)`.
  - Element (row, col) sits at offset `col * rows + row`, and the lemmas prove this offset is a bijection onto the buffer.
  - It defines the pure counterparts of `submatrix` (`Block`), `add`/`sub` (`MatAdd`/`MatSub`) and `combine_quadrants` (`Assemble`), with their round trips.
- `products.dfy` (`Products`): the product itself.
  - `Dot` is the partial sum accumulated in increasing k, and `Product` is the matrix of full sums.
  - It proves the algebra the recursions rely on: bilinearity, splitting the sum at any k, and the block multiplication formula.
- `matrix.dfy` (`Matrices.Matrix`): the `Matrix` struct as a class over an `array<int>`.
  - Methods cover `new`, `index`, `index_mut`, `submatrix`, in-place `add`/`sub` and `combine_quadrants`.
  - Each method is specified by the value the buffer holds before and after.
- `iterative_matmul.dfy` (`Iterative`): `iterative_matmul`, the j-k-i loop, proved to leave `Product(A, B)` in a fresh matrix.
- `reference_matmul.dfy` (`Reference`): the i-j-k `reference_matmul` of the tests, proved to compute the same `Product(A, B)`.
- `divide_conquer_matmul.dfy` (`DivideConquer`): `divide_conquer_matmul` and its recursion, as functions on `Mat`, with the induction proving they equal `Product`.
- `strassen_matmul.dfy` (`Strassen`): `strassen_matmul` and its recursion.
  - It proves Strassen's four recombination identities.
  - It proves that the recursion succeeds exactly when every level above the threshold has even m, n and p, and that it then equals `Product`.

The recursive algorithms work on matrix values. Every sum, difference and product in them is a fresh matrix, as their comments describe (C11 = A11·B11 + A12·B21, …, M1 = (A11 + A22)·(B11 + B22), …).

As written, the `add`/`sub` calls in the recursions do not compile in this revision:

- `add`/`sub` take `&mut self` and update in place, but the bindings they are called on are not `mut`. This affects divide_conquer_matmul.rs lines 83-86 and 93-105, and strassen_matmul.rs lines 73-79, 99-105 and 116-119.
- Strassen reads `a11`, `b11`, `m1` and others again after using them as the receiver of `add`/`sub`.

So the recursions use the pure `MatAdd`/`MatSub`. These equal the value the in-place methods leave in `self` (compare the contracts of `Matrices.Matrix.Add` and `MatrixValues.MatAdd`).

## Model

| member | source | states |
|---|---|---|
| MatrixValues.SizeIsProduct | rust/src/matrix.rs:14-20 | the buffer length Size(rows, cols) is rows * cols |
| MatrixValues.OffsetFormula | rust/src/matrix.rs:118-120 | the model's offset of (row, col) is col * rows + row, the index expression of `index` |
| MatrixValues.OffsetInBounds | rust/src/matrix.rs:118-120 | for row < rows and col < cols the offset lies inside the rows * cols buffer |
| MatrixValues.OffsetInjective | rust/src/matrix.rs:126-128 | for rows in range, two positions share an offset iff they are the same position |
| MatrixValues.OffsetDecompose | rust/src/matrix.rs:4-10 | every offset below rows * cols is the offset of some (row, col) in range, so the column-major layout covers the whole buffer |
| MatrixValues.OffsetInverse | rust/src/matrix.rs:118-120 | row and column are recovered from the offset: the layout is a bijection |
| MatrixValues.Zero | rust/src/matrix.rs:14-20 | rows x cols, every element 0 |
| MatrixValues.Block | rust/src/matrix.rs:30-48 | (re - rs) x (ce - cs), element (i, j) is the source element (rs + i, cs + j) |
| MatrixValues.MatAdd | rust/src/matrix.rs:51-59 | same shape as the operands, element-wise sum |
| MatrixValues.MatSub | rust/src/matrix.rs:62-70 | same shape as the operands, element-wise difference |
| MatrixValues.Assemble | rust/src/matrix.rs:73-110 | (c11.rows + c21.rows) x (c11.cols + c12.cols); each element comes from the quadrant covering it, shifted by rows_top / cols_left |
| MatrixValues.SplitAssembled | rust/src/matrix.rs:73-110 | cutting the four block ranges out of the combined matrix gives back c11, c12, c21, c22 |
| MatrixValues.SplitTiled | rust/src/matrix.rs:73-110 | any matrix tiled by four quadrants splits back into exactly those quadrants |
| MatrixValues.AssembleSplit | rust/src/matrix.rs:30-48 | combining the four submatrices of M cut at any (r, c) reconstructs M |
| Products.Product | rust/src/test.rs:28-43 | A * B is m x p and its (i, j) element is the full sum over k < n accumulated in increasing k |
| Products.DotShift | rust/src/divide_conquer_matmul.rs:61-65 | the terms with k in [s, s + k) of a sum are the partial sum of the product of the blocks those k select |
| Products.DotSplit | rust/src/divide_conquer_matmul.rs:61-65 | the full sum is the sum over the first h values of k plus the sum over the rest, each a product of blocks |
| Products.DotAddLeft | rust/src/strassen_matmul.rs:62-68 | (X + Y) B = X B + Y B, element by element and for every prefix of k |
| Products.DotSubLeft | rust/src/strassen_matmul.rs:62-68 | (X - Y) B = X B - Y B |
| Products.DotAddRight | rust/src/strassen_matmul.rs:62-68 | A (X + Y) = A X + A Y |
| Products.DotSubRight | rust/src/strassen_matmul.rs:62-68 | A (X - Y) = A X - A Y |
| Products.QuadrantOfProduct | rust/src/divide_conquer_matmul.rs:61-65 | a block of A * B equals A-rows-block times B-first-h-rows plus the rest, for any inner split h |
| Products.SumOfProducts | rust/src/divide_conquer_matmul.rs:61-65 | the same for any matrices characterised as the block, the two products and their sum |
| Products.BlockSum | rust/src/divide_conquer_matmul.rs:61-65 | the block formula C11..C22 tiled is (a11.rows + a21.rows) x (b11.cols + b12.cols) |
| Products.BlockProduct | rust/src/divide_conquer_matmul.rs:61-65 | for any split (mh, nh, ph), A * B equals the tiled block formula C11 = A11 B11 + A12 B21, …, C22 = A21 B12 + A22 B22 |
| Matrices.Matrix.constructor | rust/src/matrix.rs:14-20 | fresh buffer of rows * cols elements, the given dimensions, every element zero |
| Matrices.Matrix.At | rust/src/matrix.rs:118-120 | returns the element (row, col) of the matrix's value |
| Matrices.Matrix.Set | rust/src/matrix.rs:126-128 | element (row, col) becomes v, every other element keeps its value |
| Matrices.Matrix.Submatrix | rust/src/matrix.rs:30-48 | fresh matrix whose value is the block [rs, re) x [cs, ce) of self; self unchanged (no modifies) |
| Matrices.Matrix.Add | rust/src/matrix.rs:51-59 | shapes differ: ShapeMismatch and nothing changes; otherwise self becomes old self + other, shape and other unchanged |
| Matrices.Matrix.Sub | rust/src/matrix.rs:62-70 | shapes differ: ShapeMismatch and nothing changes; otherwise self becomes old self - other |
| Matrices.Matrix.CopyBlock | rust/src/matrix.rs:81-107 | one copy loop: src lands at (top, left), every element outside that block keeps its value |
| Matrices.Matrix.CombineQuadrants | rust/src/matrix.rs:73-110 | fresh matrix whose value is Assemble(c11, c12, c21, c22): right size, each block at its offset, the four regions tiling it |
| Iterative.IterativeMatmul | rust/src/iterative_matmul.rs:15-41 | error iff a.cols != b.rows, carrying (m, n, q, p); otherwise a freshly allocated matrix whose value is A * B; inputs not modified |
| Reference.ReferenceMatmul | rust/src/test.rs:28-43 | the i-j-k loop leaves A * B in a freshly allocated matrix, the same value the j-k-i loop of IterativeMatmul leaves |
| DivideConquer.Operands | rust/src/divide_conquer_matmul.rs:69-78 | eight composable (A-quadrant, B-quadrant) pairs, each strictly smaller in m + n + p than the caller |
| DivideConquer.DivideConquerRecursive | rust/src/divide_conquer_matmul.rs:34-59 | m x p result; the recursion terminates (m + n + p decreases) and every floor/ceil split yields quadrants with matching inner dimensions |
| DivideConquer.QuadrantProducts | rust/src/divide_conquer_matmul.rs:67-111 | the combined quadrant sums have the shape combine_quadrants accepts, (a11.rows + a21.rows) x (b11.cols + b12.cols) |
| DivideConquer.ParallelProducts | rust/src/divide_conquer_matmul.rs:67-88 | the mapped eight results, added pairwise and combined, have the full result's shape |
| DivideConquer.SequentialProducts | rust/src/divide_conquer_matmul.rs:89-108 | the explicit eight calls, added pairwise and combined, have the full result's shape |
| DivideConquer.DivideConquerCorrect | rust/src/divide_conquer_matmul.rs:33-112 | for every threshold that lets it end and either branch, the recursion equals A * B (below the threshold trivially, above by induction and the block formula) |
| DivideConquer.QuadrantProductsCorrect | rust/src/divide_conquer_matmul.rs:61-111 | the eight recursive products summed in pairs and combined equal the tiled block formula of exact products |
| DivideConquer.ParallelMatchesSequential | rust/src/divide_conquer_matmul.rs:67-108 | the parallel and the sequential branch give the same matrix |
| DivideConquer.DivideConquerMatmul | rust/src/divide_conquer_matmul.rs:17-31 | error iff a.cols != b.rows, carrying (m, n, q, p); otherwise A * B |
| Strassen.Operands | rust/src/strassen_matmul.rs:72-80 | exactly seven operand pairs, each composable and of the quadrant dimensions |
| Strassen.Recombine | rust/src/strassen_matmul.rs:110-122 | the four recombined quadrants tile a 2 mh x 2 ph matrix |
| Strassen.StrassenRecursive | rust/src/strassen_matmul.rs:34-123 | a success is m x p; the only failure is the shape assertion of the first quadrant addition |
| Strassen.SevenProducts | rust/src/strassen_matmul.rs:70-108 | a success has the full result's shape; a failure is ShapeMismatch |
| Strassen.ParallelProducts | rust/src/strassen_matmul.rs:70-96 | the seven mapped results recombine to the full shape; any failure fails the whole |
| Strassen.SequentialProducts | rust/src/strassen_matmul.rs:97-108 | M1..M7 in turn recombine to the full shape; any failure fails the whole |
| Strassen.TopLeftAt | rust/src/strassen_matmul.rs:116 | M1 + M4 - M5 + M7 = A11 B11 + A12 B21 at every element |
| Strassen.TopRightAt | rust/src/strassen_matmul.rs:117 | M3 + M5 = A11 B12 + A12 B22 |
| Strassen.BottomLeftAt | rust/src/strassen_matmul.rs:118 | M2 + M4 = A21 B11 + A22 B21 |
| Strassen.BottomRightAt | rust/src/strassen_matmul.rs:119 | M1 - M2 + M3 + M6 = A21 B12 + A22 B22 |
| Strassen.RecombineCorrect | rust/src/strassen_matmul.rs:110-122 | the recombination of the seven products is the tiled block formula of exact products |
| Strassen.ResultsAreProducts | rust/src/strassen_matmul.rs:72-86 | the i-th mapped result is the product of the i-th input pair, so the seven are M1..M7 in order |
| Strassen.StrassenCorrect | rust/src/strassen_matmul.rs:34-123 | success iff every level above the threshold has even m, n, p (failure otherwise), and a success equals A * B |
| Strassen.SevenProductsCorrect | rust/src/strassen_matmul.rs:70-108 | either branch succeeds iff the quadrant level splits evenly down to the threshold, and then equals the block formula |
| Strassen.ParallelProductsCorrect | rust/src/strassen_matmul.rs:70-96 | the parallel branch succeeds under the same condition and equals the block formula |
| Strassen.SequentialProductsCorrect | rust/src/strassen_matmul.rs:97-108 | the sequential branch succeeds under the same condition and equals the block formula |
| Strassen.ParallelMatchesSequential | rust/src/strassen_matmul.rs:70-108 | both branches fail together or give the same matrix |
| Strassen.StrassenMatmul | rust/src/strassen_matmul.rs:17-31 | DimensionMismatch iff a.cols != b.rows; otherwise success iff evenness down to the threshold, and then A * B |

## Left out

- Elements are unbounded integers, not `f64`. Rounding, the Frobenius-norm `matrix_error` and the 1e-10 tolerances of rust/src/test.rs are not modelled. Every identity proved here holds exactly over the integers.
- `usize` arithmetic (`rows * cols`, `m + n + p`) cannot overflow in the model, since sizes are unbounded naturals.
- `Matrix::random` calls the `rand` crate and is left out.
- rayon's `into_par_iter().map().collect()` is modelled as a sequential map over the input pairs. Thread scheduling is not modelled.
- rust/src/benchmark.rs, rust/src/main.rs, the `main` of rust/src/test.rs and plot/compare_benchmarks.py (timing, allocation counting, I/O, plotting) are not part of this model.
- `classic_matmul` is not part of this model. The divide-and-conquer base case that calls it is given `Product(a, b)`, the contract `Iterative.IterativeMatmul` is proved to meet. The Strassen base case calls `iterative_matmul` and is given the same contract.
- Matrices.Matrix.At: requires row < rows and col < cols. The Rust code checks only that the flat offset lies inside the buffer.
- Matrices.Matrix.Set: requires row < rows and col < cols, for the same reason as `At`.
- Matrices.Matrix.Submatrix: requires rs ≤ re ≤ rows and cs ≤ ce ≤ cols. Outside these bounds the Rust code either panics (a column past the end of the buffer, or the `usize` subtraction underflowing in debug builds) or, when only re exceeds rows, silently reads elements of the next column; neither behaviour is modelled.
- Matrices.Matrix.Add: requires `other` to have a different buffer, which Rust's borrow rules guarantee. The returned `&mut Self` used for chaining is not modelled.
- Matrices.Matrix.Sub: the same two points as for `Add`.
- Matrices.Matrix.CombineQuadrants: requires the four quadrants to fit (c11/c12 share rows, c21/c22 share rows, c11/c21 share columns, c12/c22 share columns). The code does not check this. With other shapes it panics or writes elements outside their block, and those outcomes are not modelled. Every caller in the core meets the requirement.
- DivideConquer.DivideConquerRecursive: requires threshold ≥ 1 or an empty dimension. With threshold 0, a non-empty product keeps producing a 1 x 1 x 1 sub-product that splits into itself, so the Rust recursion never terminates (it overflows the stack). This non-terminating path is not modelled.
- DivideConquer.DivideConquerMatmul: carries the same threshold requirement as `DivideConquerRecursive`, for the same reason.
- Reference.ReferenceMatmul: requires a.cols == b.rows. The test helper does not check it; the tests only ever call it on square matrices of equal size.
- The panic on an odd dimension in Strassen is modelled as the error `ShapeMismatch`. It fires at the first `assert_eq!` in `a11.add(&a22)` or `b11.add(&b22)`. There is no padding anywhere in the code.
