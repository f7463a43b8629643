/** The arithmetic layer of src/operations.rs: element-wise add and subtract,
    scalar multiplication in both orders, and the matrix product. Add,
    subtract and the product check the shapes first and panic with a
    `DimensionError`; the model returns that panic as an `Err`. Scalar
    multiplication has no check and always succeeds: it scales a copy of
    the operand in place. */
module Operations {
  import opened Wrappers
  import opened Strings
  import opened CustomError
  import opened Matrices

  /** The message of add AND subtract: subtract reuses the add wording. */
  const AddMessage: string := "Can't add two matrices of different dimensions"

  /** "Dimensions not matched. M1 is RxC and M2 is RxC", shapes in decimal. */
  function MulMessage(r1: nat, c1: nat, r2: nat, c2: nat): (m: string)
    ensures var R1, C1, R2, C2 := |NatToString(r1)|, |NatToString(c1)|, |NatToString(r2)|, |NatToString(c2)|;
      && |m| == 43 + R1 + C1 + R2 + C2
      && m[..30] == "Dimensions not matched. M1 is "
      && m[30..30 + R1] == NatToString(r1)
      && m[30 + R1] == 'x'
      && m[31 + R1..31 + R1 + C1] == NatToString(c1)
      && m[31 + R1 + C1..42 + R1 + C1] == " and M2 is "
      && m[42 + R1 + C1..42 + R1 + C1 + R2] == NatToString(r2)
      && m[42 + R1 + C1 + R2] == 'x'
      && m[43 + R1 + C1 + R2..] == NatToString(c2)
  {
    var m := "Dimensions not matched. M1 is " + NatToString(r1) + "x" + NatToString(c1)
      + " and M2 is " + NatToString(r2) + "x" + NatToString(c2);
    MessageLayout("Dimensions not matched. M1 is ", NatToString(r1), NatToString(c1),
                  " and M2 is ", NatToString(r2), NatToString(c2));
    m
  }

  /** Where each piece of `p + a + "x" + b + w + c + "x" + d` lies. */
  lemma MessageLayout(p: string, a: string, b: string, w: string, c: string, d: string)
    ensures var m := p + a + "x" + b + w + c + "x" + d;
      var i1, i2, i3 := |p| + |a|, |p| + |a| + 1 + |b|, |p| + |a| + 1 + |b| + |w| + |c|;
      && |m| == i3 + 1 + |d|
      && m[..|p|] == p && m[|p|..i1] == a && m[i1] == 'x'
      && m[i1 + 1..i2] == b && m[i2..i2 + |w|] == w && m[i2 + |w|..i3] == c
      && m[i3] == 'x' && m[i3 + 1..] == d
  {
  }

  function Min(x: nat, y: nat): nat { if x <= y then x else y }

  // ---------------------------------------------------------------------
  // Specification of the results, on grids

  datatype Op = Plus | Minus

  function Apply(op: Op, x: real, y: real): real
  {
    match op
    case Plus => x + y
    case Minus => x - y
  }

  predicate SameShape(a: Grid, b: Grid)
  {
    |a| == |b| && forall i :: 0 <= i < |a| ==> |a[i]| == |b[i]|
  }

  /** The entry-by-entry sum or difference of two grids of one shape. */
  function Combined(a: Grid, b: Grid, op: Op): Grid
    requires SameShape(a, b)
  {
    seq(|a|, i requires 0 <= i < |a| =>
      seq(|a[i]|, j requires 0 <= j < |a[i]| => Apply(op, a[i][j], b[i][j])))
  }

  /** Every entry multiplied by `k`. */
  function Scaled(a: Grid, k: real): Grid
  {
    seq(|a|, i requires 0 <= i < |a| => seq(|a[i]|, j requires 0 <= j < |a[i]| => a[i][j] * k))
  }

  /** `Σ_{k < n} a[i][k] · b[k][j]`, accumulated left to right. */
  function Dot(a: Grid, b: Grid, i: nat, j: nat, n: nat): real
    requires i < |a| && n <= |a[i]| && n <= |b|
    requires forall k :: 0 <= k < n ==> j < |b[k]|
  {
    if n == 0 then 0.0 else Dot(a, b, i, j, n - 1) + a[i][n - 1] * b[n - 1][j]
  }

  /** `a` is `|a| × |b|` and `b` is `|b| × p`. */
  predicate Conformable(a: Grid, b: Grid, p: nat)
  {
    IsShape(a, |a|, |b|) && IsShape(b, |b|, p)
  }

  /** The `|a| × p` matrix product, summing over the rows of `b`. */
  function Product(a: Grid, b: Grid, p: nat): Grid
    requires Conformable(a, b, p)
  {
    seq(|a|, i requires 0 <= i < |a| => seq(p, j requires 0 <= j < p => Dot(a, b, i, j, |b|)))
  }

  // ---------------------------------------------------------------------
  // Laws of the specification

  /** Subtracting what was added gives the original back. */
  lemma SubAfterAdd(a: Grid, b: Grid)
    requires SameShape(a, b)
    ensures SameShape(Combined(a, b, Plus), b)
    ensures Combined(Combined(a, b, Plus), b, Minus) == a
  {
    var s := Combined(a, b, Plus);
    var d := Combined(s, b, Minus);
    forall i | 0 <= i < |a|
      ensures d[i] == a[i]
    {
      assert forall j :: 0 <= j < |a[i]| ==> d[i][j] == (a[i][j] + b[i][j]) - b[i][j];
    }
  }

  /** Scaling by `k` and then by `1/k` gives the original back. */
  lemma ScaledInverse(a: Grid, k: real)
    requires k != 0.0
    ensures Scaled(Scaled(a, k), 1.0 / k) == a
  {
    var s := Scaled(Scaled(a, k), 1.0 / k);
    forall i | 0 <= i < |a|
      ensures s[i] == a[i]
    {
      forall j | 0 <= j < |a[i]|
        ensures s[i][j] == a[i][j]
      {
        calc {
          s[i][j];
          (a[i][j] * k) * (1.0 / k);
          a[i][j] * (k * (1.0 / k));
          a[i][j];
        }
      }
    }
  }

  lemma {:induction false} DotIdentity(n: nat, b: Grid, p: nat, i: nat, j: nat, m: nat)
    requires IsShape(b, n, p) && i < n && j < p && m <= n
    ensures Dot(IdentityGrid(n), b, i, j, m) == if i < m then b[i][j] else 0.0
  {
    if m > 0 {
      DotIdentity(n, b, p, i, j, m - 1);
    }
  }

  /** The identity is a left unit of the product. */
  lemma ProductIdentityLeft(b: Grid, n: nat, p: nat)
    requires IsShape(b, n, p)
    ensures Conformable(IdentityGrid(n), b, p)
    ensures Product(IdentityGrid(n), b, p) == b
  {
    var q := Product(IdentityGrid(n), b, p);
    forall i, j | 0 <= i < n && 0 <= j < p
      ensures q[i][j] == b[i][j]
    {
      DotIdentity(n, b, p, i, j, n);
    }
    assert forall i :: 0 <= i < n ==> q[i] == b[i];
  }

  lemma {:induction false} DotSum(a: Grid, b: Grid, c: Grid, p: nat, i: nat, j: nat, m: nat)
    requires Conformable(a, b, p) && SameShape(b, c) && i < |a| && j < p && m <= |b|
    ensures Conformable(a, Combined(b, c, Plus), p)
    ensures Dot(a, Combined(b, c, Plus), i, j, m) == Dot(a, b, i, j, m) + Dot(a, c, i, j, m)
  {
    if m > 0 {
      DotSum(a, b, c, p, i, j, m - 1);
    }
  }

  /** The product distributes over the element-wise sum. */
  lemma ProductDistributesOverSum(a: Grid, b: Grid, c: Grid, p: nat)
    requires Conformable(a, b, p) && SameShape(b, c)
    ensures Conformable(a, Combined(b, c, Plus), p) && Conformable(a, c, p)
    ensures SameShape(Product(a, b, p), Product(a, c, p))
    ensures Product(a, Combined(b, c, Plus), p) == Combined(Product(a, b, p), Product(a, c, p), Plus)
  {
    var l := Product(a, Combined(b, c, Plus), p);
    var r := Combined(Product(a, b, p), Product(a, c, p), Plus);
    forall i, j | 0 <= i < |a| && 0 <= j < p
      ensures l[i][j] == r[i][j]
    {
      DotSum(a, b, c, p, i, j, |b|);
    }
    assert forall i :: 0 <= i < |a| ==> l[i] == r[i];
  }

  lemma {:induction false} DotScaled(a: Grid, b: Grid, p: nat, k: real, i: nat, j: nat, m: nat)
    requires Conformable(a, b, p) && i < |a| && j < p && m <= |b|
    ensures Conformable(Scaled(a, k), b, p)
    ensures Dot(Scaled(a, k), b, i, j, m) == Dot(a, b, i, j, m) * k
  {
    if m > 0 {
      DotScaled(a, b, p, k, i, j, m - 1);
      calc {
        Dot(Scaled(a, k), b, i, j, m);
        Dot(a, b, i, j, m - 1) * k + (a[i][m - 1] * k) * b[m - 1][j];
        (Dot(a, b, i, j, m - 1) + a[i][m - 1] * b[m - 1][j]) * k;
      }
    }
  }

  /** Scaling the left factor scales the product. */
  lemma ProductScaledLeft(a: Grid, b: Grid, p: nat, k: real)
    requires Conformable(a, b, p)
    ensures Conformable(Scaled(a, k), b, p)
    ensures Product(Scaled(a, k), b, p) == Scaled(Product(a, b, p), k)
  {
    var l := Product(Scaled(a, k), b, p);
    var r := Scaled(Product(a, b, p), k);
    forall i, j | 0 <= i < |a| && 0 <= j < p
      ensures l[i][j] == r[i][j]
    {
      DotScaled(a, b, p, k, i, j, |b|);
    }
    assert forall i :: 0 <= i < |a| ==> l[i] == r[i];
  }

  // ---------------------------------------------------------------------
  // Add and subtract

  /** The shared body of `add` and `sub` AS WRITTEN: after the shape check
      the result is allocated as `Matrix::new(cols, rows)` (rows and columns
      swapped) and then written as if it were `rows × cols`. Equal shapes
      that are not square therefore hit Rust's bounds check at the first
      index past the smaller dimension; when a dimension is 0 nothing is
      written and the swapped zero matrix comes back. */
  method ElementWise(a: Matrix, b: Matrix, op: Op) returns (r: Result<Matrix, Panic>)
    requires a.Valid() && b.Valid()
    ensures (a.rows != b.rows || a.cols != b.cols) ==> r == Err(DimensionFailure(AddMessage))
    ensures a.rows == b.rows && a.cols == b.cols && a.rows != a.cols && a.rows > 0 && a.cols > 0 ==>
              r == Err(IndexOutOfBounds(Min(a.rows, a.cols), Min(a.rows, a.cols)))
    ensures a.rows == b.rows && a.cols == b.cols && (a.rows == a.cols || a.rows == 0 || a.cols == 0) ==>
              r.Ok? && fresh(r.value) && r.value.Valid() && r.value.rows == a.cols && r.value.cols == a.rows
    ensures r.Ok? && a.rows == a.cols ==> r.value.data == Combined(a.data, b.data, op)
    ensures r.Ok? && a.rows != a.cols ==> r.value.data == Zeros(a.cols, a.rows)
  {
    if a.cols != b.cols || a.rows != b.rows {
      return Err(DimensionFailure(AddMessage));
    }
    var res := Matrix.New(a.cols, a.rows);
    var i := 0;
    while i < a.rows
      invariant 0 <= i <= a.rows
      invariant fresh(res) && res.Valid() && res.rows == a.cols && res.cols == a.rows
      invariant a.cols > 0 ==> i <= a.cols
      invariant 0 < a.rows < a.cols ==> i == 0
      invariant forall x, y :: 0 <= x < a.cols && 0 <= y < a.rows ==>
                  res.data[x][y] == if x < i && y < a.cols then Apply(op, a.data[x][y], b.data[x][y]) else 0.0
    {
      var j := 0;
      while j < a.cols
        invariant 0 <= j <= a.cols
        invariant j > 0 ==> i < a.cols && j <= a.rows
        invariant fresh(res) && res.Valid() && res.rows == a.cols && res.cols == a.rows
        invariant forall x, y :: 0 <= x < a.cols && 0 <= y < a.rows ==>
                    res.data[x][y] == if (x < i && y < a.cols) || (x == i && y < j)
                                      then Apply(op, a.data[x][y], b.data[x][y]) else 0.0
      {
        if i >= |res.data| {
          return Err(IndexOutOfBounds(i, |res.data|));
        }
        if j >= |res.data[i]| {
          return Err(IndexOutOfBounds(j, |res.data[i]|));
        }
        res.data := res.data[i := res.data[i][j := Apply(op, a.data[i][j], b.data[i][j])]];
        j := j + 1;
      }
      i := i + 1;
    }
    if a.rows == a.cols {
      assert forall x :: 0 <= x < a.rows ==> res.data[x] == Combined(a.data, b.data, op)[x];
    } else {
      assert forall x :: 0 <= x < a.cols ==> res.data[x] == Zeros(a.cols, a.rows)[x];
    }
    r := Ok(res);
  }

  /** `Add for Matrix` as written. */
  method Add(a: Matrix, b: Matrix) returns (r: Result<Matrix, Panic>)
    requires a.Valid() && b.Valid()
    ensures (a.rows != b.rows || a.cols != b.cols) ==> r == Err(DimensionFailure(AddMessage))
    ensures a.rows == b.rows && a.cols == b.cols && a.rows != a.cols && a.rows > 0 && a.cols > 0 ==>
              r == Err(IndexOutOfBounds(Min(a.rows, a.cols), Min(a.rows, a.cols)))
    ensures a.rows == b.rows && a.cols == b.cols && (a.rows == a.cols || a.rows == 0 || a.cols == 0) ==>
              r.Ok? && fresh(r.value) && r.value.Valid() && r.value.rows == a.cols && r.value.cols == a.rows
    ensures r.Ok? && a.rows == a.cols ==> r.value.data == Combined(a.data, b.data, Plus)
    ensures r.Ok? && a.rows != a.cols ==> r.value.data == Zeros(a.cols, a.rows)
  {
    r := ElementWise(a, b, Plus);
  }

  /** `Sub for Matrix` as written, with the add message. */
  method Sub(a: Matrix, b: Matrix) returns (r: Result<Matrix, Panic>)
    requires a.Valid() && b.Valid()
    ensures (a.rows != b.rows || a.cols != b.cols) ==> r == Err(DimensionFailure(AddMessage))
    ensures a.rows == b.rows && a.cols == b.cols && a.rows != a.cols && a.rows > 0 && a.cols > 0 ==>
              r == Err(IndexOutOfBounds(Min(a.rows, a.cols), Min(a.rows, a.cols)))
    ensures a.rows == b.rows && a.cols == b.cols && (a.rows == a.cols || a.rows == 0 || a.cols == 0) ==>
              r.Ok? && fresh(r.value) && r.value.Valid() && r.value.rows == a.cols && r.value.cols == a.rows
    ensures r.Ok? && a.rows == a.cols ==> r.value.data == Combined(a.data, b.data, Minus)
    ensures r.Ok? && a.rows != a.cols ==> r.value.data == Zeros(a.cols, a.rows)
  {
    r := ElementWise(a, b, Minus);
  }

  /** Adding two `1 × 2` matrices panics in the bounds check. */
  method AddOneByTwo() returns (r: Result<Matrix, Panic>)
    ensures r == Err(IndexOutOfBounds(1, 1))
  {
    var a := Matrix.New(1, 2);
    var b := Matrix.New(1, 2);
    r := Add(a, b);
  }

  /** The evidently intended add/subtract: the result is allocated as
      `Matrix::new(rows, cols)`, so every pair of equal shapes succeeds. */
  method ElementWiseShaped(a: Matrix, b: Matrix, op: Op) returns (r: Result<Matrix, Panic>)
    requires a.Valid() && b.Valid()
    ensures r.Err? <==> (a.rows != b.rows || a.cols != b.cols)
    ensures r.Err? ==> r.error == DimensionFailure(AddMessage)
    ensures r.Ok? ==> fresh(r.value) && r.value.Valid() && r.value.rows == a.rows && r.value.cols == a.cols
    ensures r.Ok? ==> SameShape(a.data, b.data) && r.value.data == Combined(a.data, b.data, op)
  {
    if a.cols != b.cols || a.rows != b.rows {
      return Err(DimensionFailure(AddMessage));
    }
    var res := Matrix.New(a.rows, a.cols);
    var i := 0;
    while i < a.rows
      invariant 0 <= i <= a.rows
      invariant fresh(res) && res.Valid() && res.rows == a.rows && res.cols == a.cols
      invariant forall x :: 0 <= x < i ==> res.data[x] == Combined(a.data, b.data, op)[x]
    {
      var j := 0;
      while j < a.cols
        invariant 0 <= j <= a.cols
        invariant fresh(res) && res.Valid() && res.rows == a.rows && res.cols == a.cols
        invariant forall x :: 0 <= x < i ==> res.data[x] == Combined(a.data, b.data, op)[x]
        invariant forall y :: 0 <= y < j ==> res.data[i][y] == Apply(op, a.data[i][y], b.data[i][y])
      {
        res.data := res.data[i := res.data[i][j := Apply(op, a.data[i][j], b.data[i][j])]];
        j := j + 1;
      }
      assert res.data[i] == Combined(a.data, b.data, op)[i];
      i := i + 1;
    }
    r := Ok(res);
  }

  // ---------------------------------------------------------------------
  // Scalar multiplication

  /** Multiplies every entry of `m` by `k` in place (`res.data[i][j] *= k`). */
  method ScaleEntries(m: Matrix, k: real)
    requires m.Valid()
    modifies m`data
    ensures m.Valid() && m.data == Scaled(old(m.data), k)
  {
    ghost var d := m.data;
    var i := 0;
    while i < m.rows
      invariant 0 <= i <= m.rows
      invariant m.Valid() && IsShape(d, m.rows, m.cols)
      invariant forall x :: 0 <= x < i ==> m.data[x] == Scaled(d, k)[x]
      invariant forall x :: i <= x < m.rows ==> m.data[x] == d[x]
    {
      var j := 0;
      while j < m.cols
        invariant 0 <= j <= m.cols
        invariant m.Valid()
        invariant IsShape(d, m.rows, m.cols)
        invariant forall x :: 0 <= x < i ==> m.data[x] == Scaled(d, k)[x]
        invariant forall x :: i < x < m.rows ==> m.data[x] == d[x]
        invariant forall y :: 0 <= y < m.cols ==> m.data[i][y] == if y < j then d[i][y] * k else d[i][y]
      {
        m.data := m.data[i := m.data[i][j := m.data[i][j] * k]];
        j := j + 1;
      }
      assert forall y :: 0 <= y < m.cols ==> m.data[i][y] == Scaled(d, k)[i][y];
      assert m.data[i] == Scaled(d, k)[i];
      i := i + 1;
    }
    assert forall x :: 0 <= x < m.rows ==> m.data[x] == Scaled(d, k)[x];
  }

  /** `Mul<f64> for Matrix`: `m * k`, a scaled copy; `m` is left as it was. */
  method MatrixTimesScalar(m: Matrix, k: real) returns (res: Matrix)
    requires m.Valid()
    ensures fresh(res) && res.Valid() && res.rows == m.rows && res.cols == m.cols
    ensures res.data == Scaled(m.data, k)
  {
    res := m.Copy();
    ScaleEntries(res, k);
  }

  /** `Mul<Matrix> for f64`: `k * m`, computed exactly as `m * k`. */
  method ScalarTimesMatrix(k: real, m: Matrix) returns (res: Matrix)
    requires m.Valid()
    ensures fresh(res) && res.Valid() && res.rows == m.rows && res.cols == m.cols
    ensures res.data == Scaled(m.data, k)
  {
    res := m.Copy();
    ScaleEntries(res, k);
  }

  // ---------------------------------------------------------------------
  // Matrix product

  /** The nested loops of the product: `res[i][j]` is the dot product of row
      `i` of `a` and column `j` of `b`, accumulated in `sum` over `b`'s rows. */
  method ProductLoops(a: Matrix, b: Matrix) returns (dp: Matrix)
    requires a.Valid() && b.Valid() && a.cols == b.rows
    ensures fresh(dp) && dp.Valid() && dp.rows == a.rows && dp.cols == b.cols
    ensures Conformable(a.data, b.data, b.cols) && dp.data == Product(a.data, b.data, b.cols)
  {
    dp := Matrix.New(a.rows, b.cols);
    var i := 0;
    while i < dp.rows
      invariant 0 <= i <= dp.rows
      invariant fresh(dp) && dp.Valid() && dp.rows == a.rows && dp.cols == b.cols
      invariant forall x :: 0 <= x < i ==> dp.data[x] == Product(a.data, b.data, b.cols)[x]
    {
      var j := 0;
      while j < dp.cols
        invariant 0 <= j <= dp.cols
        invariant fresh(dp) && dp.Valid() && dp.rows == a.rows && dp.cols == b.cols
        invariant forall x :: 0 <= x < i ==> dp.data[x] == Product(a.data, b.data, b.cols)[x]
        invariant forall y :: 0 <= y < j ==> dp.data[i][y] == Dot(a.data, b.data, i, y, b.rows)
      {
        var sum := 0.0;
        var k := 0;
        while k < b.rows
          invariant 0 <= k <= b.rows
          invariant sum == Dot(a.data, b.data, i, j, k)
        {
          sum := sum + a.data[i][k] * b.data[k][j];
          k := k + 1;
        }
        dp.data := dp.data[i := dp.data[i][j := sum]];
        j := j + 1;
      }
      assert dp.data[i] == Product(a.data, b.data, b.cols)[i];
      i := i + 1;
    }
  }

  /** `Mul<Matrix> for Matrix` as written: the guard asks for BOTH
      `a.rows == b.cols` and `a.cols == b.rows`, so only the products whose
      result is square get through. */
  method Mul(a: Matrix, b: Matrix) returns (r: Result<Matrix, Panic>)
    requires a.Valid() && b.Valid()
    ensures r.Err? <==> (a.rows != b.cols || a.cols != b.rows)
    ensures r.Err? ==> r.error == DimensionFailure(MulMessage(a.rows, a.cols, b.rows, b.cols))
    ensures r.Ok? ==> fresh(r.value) && r.value.Valid() && r.value.rows == a.rows && r.value.cols == b.cols
    ensures r.Ok? ==> r.value.rows == r.value.cols
    ensures r.Ok? ==> Conformable(a.data, b.data, b.cols) && r.value.data == Product(a.data, b.data, b.cols)
  {
    if a.rows != b.cols || a.cols != b.rows {
      return Err(DimensionFailure(MulMessage(a.rows, a.cols, b.rows, b.cols)));
    }
    var dp := ProductLoops(a, b);
    r := Ok(dp);
  }

  lemma MulMessageExample()
    ensures MulMessage(2, 3, 3, 4) == "Dimensions not matched. M1 is 2x3 and M2 is 3x4"
  {
  }

  /** A `2 × 3` times a `3 × 4` matrix is a well-formed product, yet the
      guard as written rejects it. */
  method MulTwoByThreeThreeByFour() returns (r: Result<Matrix, Panic>)
    ensures r == Err(DimensionFailure("Dimensions not matched. M1 is 2x3 and M2 is 3x4"))
  {
    var a := Matrix.New(2, 3);
    var b := Matrix.New(3, 4);
    r := Mul(a, b);
    MulMessageExample();
  }

  /** `m * k` and `k * m` give equal results. */
  method ScalarOrdersAgree(m: Matrix, k: real) returns (left: Matrix, right: Matrix)
    requires m.Valid()
    ensures left.rows == right.rows && left.cols == right.cols
    ensures left.data == right.data
  {
    left := MatrixTimesScalar(m, k);
    right := ScalarTimesMatrix(k, m);
  }

  /** The evidently intended product: defined exactly when the columns of
      `a` match the rows of `b`, with an `a.rows × b.cols` result. */
  method MulConventional(a: Matrix, b: Matrix) returns (r: Result<Matrix, Panic>)
    requires a.Valid() && b.Valid()
    ensures r.Err? <==> a.cols != b.rows
    ensures r.Err? ==> r.error == DimensionFailure(MulMessage(a.rows, a.cols, b.rows, b.cols))
    ensures r.Ok? ==> fresh(r.value) && r.value.Valid() && r.value.rows == a.rows && r.value.cols == b.cols
    ensures r.Ok? ==> Conformable(a.data, b.data, b.cols) && r.value.data == Product(a.data, b.data, b.cols)
  {
    if a.cols != b.rows {
      return Err(DimensionFailure(MulMessage(a.rows, a.cols, b.rows, b.cols)));
    }
    var dp := ProductLoops(a, b);
    r := Ok(dp);
  }
}
