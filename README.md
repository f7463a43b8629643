# Zebra matrix core in Dafny

A model of the dense-matrix type of the Zebra library (Rust) and of the
proofs about it. The model covers the matrix store in `src/lib.rs`, the
arithmetic operators in `src/operations.rs` and the error record in
`src/custom_error.rs`.

The store builds matrices in three ways: zero-filled, as a copy, or parsed
from text (`;` between rows, `,` between numbers). It checks that parsed
text is rectangular, and `identity` sets the diagonal in place. The
arithmetic layer has add, subtract, scalar multiplication in both orders
and the matrix product. Add, subtract and the product check the shapes
first and fill a fresh result in nested loops. Scalar multiplication has no
check and always succeeds: it copies the operand and scales the copy in
place.

Modelling choices:

- Entries are exact `real`s. Every identity is stated over exact arithmetic.
- A `Matrix` is a class with fields `rows`, `cols` and `data` (a sequence of
  rows). `identity` changes `data` in place. `Valid()` says the fields agree
  with the grid, which is what every constructor of the library leaves. The
  operators require `Valid()` of their operands, because the source indexes
  `data[i][j]` for every `i < rows`, `j < cols`.
- A panic is a returned `Err(Panic)`. `Raised(Error)` is a panic that carries
  the error record. `ParseFailed` is the `expect` on a token that is not a
  number. `IndexOutOfBounds(index, len)` is Rust's vector bounds check.
- The numeric parser `str::parse::<f64>` is a parameter
  `parse: string -> Option<real>`.
- `str::split` with a one-character separator is the function `Strings.Split`.
  The decimal `{}` rendering of a `usize` is `Strings.NatToString`.
- Operator operands are read-only inputs and results are fresh objects. This
  replaces Rust's move of operator operands.

Where the code departs from what it evidently intends, the model follows
the code. Add and subtract allocate the result as `cols × rows`. The product's guard
asks for both `rows == rhs.cols` and `cols == rhs.rows`. `new` does not
reject zero dimensions. The intended versions of the first two are modelled
beside them (see Findings).

## Model

| member | source | states |
|---|---|---|
| CustomError.New | src/custom_error.rs:7-9 | the message is the first argument: the record's `message` and `error_type` are the arguments given |
| CustomError.Display | src/custom_error.rs:12-15 | the rendering is the category, then `": "`, then the message |
| CustomError.DisplayRoundTrip | src/custom_error.rs:14 | for a category without `:`, reading the rendering back at the first colon recovers the error exactly |
| CustomError.DisplayAmbiguous | src/custom_error.rs:14 | without that condition two different errors render the same |
| CustomError.DimensionFailure | src/operations.rs:11-14 | every shape panic of the operators carries category `DimensionError` and renders as `DimensionError: <message>` |
| Strings.Split | src/lib.rs:38 | splitting yields at least one piece and no piece contains the separator |
| Strings.SplitJoin | src/lib.rs:65 | joining the pieces with the separator gives back the text |
| Strings.JoinSplit | src/lib.rs:65 | separator-free pieces, joined and split again, come back unchanged |
| Strings.NatToString | src/operations.rs:82 | a shape renders as a non-empty string of decimal digits with no leading zero |
| Strings.DecimalRoundTrip | src/operations.rs:82 | the digits of a rendered shape denote exactly that number |
| Matrices.Zeros | src/lib.rs:20 | the grid has `rows` rows of `cols` entries, all 0 |
| Matrices.Matrix.constructor | src/lib.rs:4-8 | the struct literal stores the given `rows`, `cols` and `data` |
| Matrices.Matrix.New | src/lib.rs:19-22 | a fresh matrix with fields equal to the arguments and a zero grid of that shape |
| Matrices.Matrix.Copy | src/lib.rs:49-55 | a fresh object with the same `rows`, `cols` and row-for-row equal data |
| Matrices.CopyIsIndependent | src/lib.rs:49-55 | changing a copy, in place or by reassigning its grid, leaves the original's fields and data unchanged |
| Matrices.Matrix.ParseData | src/lib.rs:57-75 | succeeds iff every separator-delimited token of every line parses; then there is one row per line, one entry per token, in order, each the parsed value; otherwise the parse panic |
| Matrices.Matrix.ValidMatrixContents | src/lib.rs:78-86 | on a non-empty grid, true iff every row is as long as row 0 |
| Matrices.Matrix.FromStr | src/lib.rs:36-47 | parse panic iff some token fails to parse; otherwise "Not a valid matrix!" DimensionError iff the rows differ in length; otherwise a valid matrix whose `rows` is the number of `;`-pieces, whose `cols` is the number of `,`-pieces of the first, and whose entries are the parsed tokens |
| Matrices.FromStrSquareExample | src/lib.rs:36-40 | `"1,2;3,4"` yields the tokens `[["1","2"],["3","4"]]` |
| Matrices.FromStrJaggedExample | src/lib.rs:42-44 | the tokens of `"1,2;3"` are not rectangular, so it is rejected |
| Matrices.Matrix.Identity | src/lib.rs:89-96 | DimensionError without change iff `rows != cols`; otherwise the shape is kept, every diagonal entry becomes 1 and every other entry is left as it was, so a zero matrix becomes the identity |
| Operations.ElementWise | src/operations.rs:9-23 | the shared add/subtract body as written. Different shapes give the "Can't add two matrices of different dimensions" DimensionError. Equal non-square shapes with both sides positive give a bounds panic at index min(rows, cols). Equal square shapes give the entry-wise result. When a dimension is 0, the result is the zero `cols × rows` matrix |
| Operations.Add | src/operations.rs:8-24 | `ElementWise` with `+`: on `n × n` operands, `res[i][j] = a[i][j] + b[i][j]` |
| Operations.Sub | src/operations.rs:29-45 | `ElementWise` with `-`, reusing the add message verbatim |
| Operations.AddOneByTwo | src/operations.rs:16-19 | adding two `1 × 2` matrices ends in the bounds panic at index 1 of length 1 |
| Operations.ElementWiseShaped | src/operations.rs:9-23 | corrected allocation `new(rows, cols)`: fails iff shapes differ, otherwise a `rows × cols` entry-wise result |
| Operations.SubAfterAdd | src/operations.rs:19-40 | subtracting `b` from `a + b` gives back `a` |
| Operations.ScaleEntries | src/operations.rs:53-57 | the in-place `*=` loop multiplies every entry by `k` and keeps the shape |
| Operations.MatrixTimesScalar | src/operations.rs:51-59 | `m * k` is a fresh matrix of `m`'s shape with `res[i][j] = m[i][j] * k` |
| Operations.ScalarTimesMatrix | src/operations.rs:64-73 | `k * m` has the same contract as `m * k`, so both orders give equal results |
| Operations.ScalarOrdersAgree | src/operations.rs:51-72 | `m * k` and `k * m` on one matrix give equal shapes and equal entries |
| Operations.ScaledInverse | src/operations.rs:55 | for `k != 0`, scaling by `k` and then by `1/k` gives the original grid |
| Operations.ProductLoops | src/operations.rs:88-99 | with `cols == rhs.rows`, a fresh `rows × rhs.cols` matrix whose entry `[i][j]` is `Σ_{k < rhs.rows} a[i][k]·b[k][j]`, with `sum` kept equal to the partial dot product |
| Operations.MulMessage | src/operations.rs:82 | the product's message is, position by position: "Dimensions not matched. M1 is ", M1's rows, `x`, M1's columns, " and M2 is ", M2's rows, `x`, M2's columns, each number rendered in decimal |
| Operations.Mul | src/operations.rs:79-100 | the "Dimensions not matched. M1 is RxC and M2 is RxC" DimensionError iff `rows != rhs.cols` or `cols != rhs.rows`; otherwise the product, always square |
| Operations.MulTwoByThreeThreeByFour | src/operations.rs:80-86 | a `2 × 3` times a `3 × 4` matrix is rejected with "Dimensions not matched. M1 is 2x3 and M2 is 3x4" |
| Operations.MulConventional | src/operations.rs:79-100 | corrected guard: fails iff `cols != rhs.rows`, otherwise the `rows × rhs.cols` product |
| Operations.ProductIdentityLeft | src/operations.rs:89-97 | the identity times `b` is `b` |
| Operations.ProductDistributesOverSum | src/operations.rs:89-97 | `a·(b + c) = a·b + a·c` |
| Operations.ProductScaledLeft | src/operations.rs:89-97 | `(a·k)·b = (a·b)·k` |

## Left out

- `from_file` (src/lib.rs:25-34): reading a file is I/O. After the read it parses the lines with a space separator and validates the grid. Its lines come from `str::lines`, which differs from `str::split` at `'\n'`. A final line ending gives no trailing empty line, so `"1 2\n3 4\n"` has two lines. A `"\r\n"` ending is stripped as well. An empty file gives an empty grid, on which `valid_matrix_contents` panics at its read of row 0 (src/lib.rs:79). `Matrices.Matrix.ValidMatrixContents` requires a non-empty grid, which `from_str` always supplies.
- `Display for Matrix` (src/lib.rs:102-115): a text rendering that depends on Rust's `f64` formatting.
- The debug-formatted `enum Error` (src/lib.rs:10-15): the panics of `from_str` and `identity` print it. The model gives them the same `DimensionError` record, with message "Not a valid matrix!".
- `f64` semantics (rounding, NaN, infinities): entries are exact reals.
- `str::parse::<f64>`: a foreign numeric parser, taken as the parameter `parse`.
- Matrices.Matrix.ParseData: on a parse failure it returns only the opaque `ParseFailed`. It does not keep the text of the `expect` panic or which token failed.
- `usize` bounds: shapes are unbounded naturals. Allocation failure for huge shapes is not modelled.
- Matrices whose public fields disagree with their grid: the operators and `Matrices.Matrix.Identity` require `Valid()`. Such matrices cannot come from `new`, `copy` or `from_str`, but a struct literal can build one. On it the source may still run: `identity` on `Matrix { rows: 1, cols: 1, data: vec![vec![0.0, 0.0]] }` sets `data[0][0]` without a panic. The model does not cover those calls.
- Ownership: operands are moved in Rust. Here they are read-only objects, and nothing else in the model uses them afterwards.
- Row reduction, determinant, cofactor, row swapping and the cleanup pass are not in `src/lib.rs` or `src/operations.rs`, so they are not part of this model.

## Findings

| source | as written | input that shows it | evidently intended | confidence | as-written member | corrected member |
|---|---|---|---|---|---|---|
| src/operations.rs:16 | add and subtract allocate the result as `Matrix::new(self.cols, self.rows)` and then write it as `rows × cols` | two `1 × 2` matrices: Rust's bounds check panics at index 1 of length 1. A `3 × 0` pair instead returns a `0 × 3` matrix | allocate `Matrix::new(self.rows, self.cols)`, so every pair of equal shapes gives their entry-wise sum or difference | high, not executed | Operations.ElementWise (Operations.AddOneByTwo for the concrete input) | Operations.ElementWiseShaped |
| src/operations.rs:80 | the product guard also requires `self.rows == rhs.cols` | a `2 × 3` times a `3 × 4` matrix is rejected although the product is defined | reject only when `self.cols != rhs.rows`; the loops already compute the `rows × rhs.cols` product correctly | medium, not executed | Operations.Mul (Operations.MulTwoByThreeThreeByFour for the concrete input) | Operations.MulConventional |
