/** Complex matrices as sequences of rows, and the two matrix routines of the
    circuit engine: `QuantumCircuit.multiply` and `QuantumCircuit.tensor`. */
module Matrices {
  import opened ComplexNumbers

  /** A `Complex[][]`: a sequence of rows. */
  type Matrix = seq<seq<Complex>>

  /** `m` has `rows` rows of `cols` entries each. */
  predicate IsMatrix(m: Matrix, rows: nat, cols: nat) {
    |m| == rows && forall i :: 0 <= i < rows ==> |m[i]| == cols
  }

  /** `m[0].length`, the column count the Java code reads off the first row. */
  function Cols(m: Matrix): nat {
    if |m| == 0 then 0 else |m[0]|
  }

  predicate Rectangular(m: Matrix) {
    IsMatrix(m, |m|, Cols(m))
  }

  /** The running sum of `multiply`'s innermost loop: the first `n` products of
      `row` with column `c` of `m2`, added left to right starting from `Complex()`. */
  function Dot(row: seq<Complex>, m2: Matrix, c: nat, n: nat): Complex
    requires n <= |row| && n <= |m2|
    requires forall w :: 0 <= w < n ==> c < |m2[w]|
  {
    if n == 0 then Zero() else Add(Dot(row, m2, c, n - 1), Mul(row[n - 1], m2[n - 1][c]))
  }

  /** What `multiply` needs of its arguments to stay inside the arrays: both
      rectangular, `matrix2[0]` present, and at least as many rows in `matrix2`
      as `matrix1` has columns. */
  predicate MultiplyReady(m1: Matrix, m2: Matrix) {
    Rectangular(m1) && Rectangular(m2) && |m2| >= 1 && Cols(m1) <= |m2|
  }

  /** The matrix product: entry (i, j) is the sum over w of m1[i][w] * m2[w][j]. */
  function MatMul(m1: Matrix, m2: Matrix): (r: Matrix)
    requires MultiplyReady(m1, m2)
    ensures IsMatrix(r, |m1|, Cols(m2))
  {
    seq(|m1|, i requires 0 <= i < |m1| =>
      seq(Cols(m2), j requires 0 <= j < Cols(m2) => Dot(m1[i], m2, j, Cols(m1))))
  }

  /** The Kronecker product: a (r1 r2) x (c1 c2) matrix whose entry (i, j) is
      s1[i / r2][j / c2] * s2[i % r2][j % c2]. */
  function Kron(s1: Matrix, s2: Matrix): (r: Matrix)
    requires Rectangular(s1) && Rectangular(s2) && |s2| >= 1 && Cols(s2) >= 1
    ensures IsMatrix(r, |s1| * |s2|, Cols(s1) * Cols(s2))
  {
    var r2, c2 := |s2|, Cols(s2);
    seq(|s1| * r2, i requires 0 <= i < |s1| * r2 =>
      seq(Cols(s1) * c2, j requires 0 <= j < Cols(s1) * c2 =>
        OffsetSplit(i, r2, |s1|);
        OffsetSplit(j, c2, Cols(s1));
        Mul(s1[i / r2][j / c2], s2[i % r2][j % c2])))
  }

  /** What `tensor` needs: both matrices rectangular and non-empty, and, since the
      destination column is `column2 + state2.length * columnMe` (a row count used
      as a column stride), either `s2` square or `s1` a single column. */
  predicate TensorReady(s1: Matrix, s2: Matrix) {
    && Rectangular(s1) && Rectangular(s2)
    && |s1| >= 1 && |s2| >= 1 && Cols(s1) >= 1 && Cols(s2) >= 1
    && (Cols(s1) == 1 || |s2| == Cols(s2))
  }

  /** The destination index `inner + stride * outer` that `tensor` writes to. */
  function Offset(inner: nat, outer: nat, stride: nat): nat {
    inner + stride * outer
  }

  lemma OffsetBound(inner: nat, outer: nat, stride: nat, count: nat)
    requires inner < stride && outer < count
    ensures Offset(inner, outer, stride) < count * stride
  {
    assert stride * outer + stride == stride * (outer + 1);
    assert stride * (outer + 1) <= stride * count;
  }

  lemma OffsetInjective(x: nat, o: nat, x2: nat, o2: nat, stride: nat)
    requires x < stride && x2 < stride
    requires Offset(x, o, stride) == Offset(x2, o2, stride)
    ensures x == x2 && o == o2
  {
    if o < o2 {
      StrideGap(stride, o, o2);
      assert false;
    } else if o2 < o {
      StrideGap(stride, o2, o);
      assert false;
    }
  }

  /** Consecutive blocks of `stride` never overlap: stride * a + stride <= stride * b for a < b. */
  lemma {:induction false} StrideGap(stride: nat, a: nat, b: nat)
    requires a < b
    ensures stride * a + stride <= stride * b
    decreases b - a
  {
    if a + 1 < b {
      StrideGap(stride, a + 1, b);
    }
    assert stride * (a + 1) == stride * a + stride;
  }

  /** Division and remainder by the stride recover the two parts of an offset. */
  lemma OffsetDivMod(inner: nat, outer: nat, stride: nat)
    requires inner < stride
    ensures Offset(inner, outer, stride) / stride == outer
    ensures Offset(inner, outer, stride) % stride == inner
  {
    var i := Offset(inner, outer, stride);
    OffsetBound(inner, outer, stride, outer + 1);
    OffsetSplit(i, stride, outer + 1);
    OffsetInjective(i % stride, i / stride, inner, outer, stride);
  }

  lemma OffsetSplit(i: nat, stride: nat, count: nat)
    requires 0 < stride && i < count * stride
    ensures i / stride < count && i % stride < stride
    ensures Offset(i % stride, i / stride, stride) == i
  {
    var q, m := i / stride, i % stride;
    assert i == stride * q + m;
  }

  /** The (i, j) entry of a (rows x cols) array as a matrix of rows. */
  function Rows(a: array2<Complex>): (r: Matrix)
    reads a
    ensures IsMatrix(r, a.Length0, a.Length1)
    ensures forall i, j :: 0 <= i < a.Length0 && 0 <= j < a.Length1 ==> r[i][j] == a[i, j]
  {
    seq(a.Length0, i requires 0 <= i < a.Length0 reads a =>
      seq(a.Length1, j requires 0 <= j < a.Length1 reads a => a[i, j]))
  }

  /** `QuantumCircuit.multiply`: fills a fresh rows(m1) x cols(m2) array, each
      entry accumulated from `Complex()` over the columns of `m1`. */
  method Multiply(m1: Matrix, m2: Matrix) returns (r: Matrix)
    requires MultiplyReady(m1, m2)
    ensures r == MatMul(m1, m2)
  {
    var rows, cols, inner := |m1|, Cols(m2), Cols(m1);
    var result := new Complex[rows, cols];
    for answerRow := 0 to rows
      invariant forall i, j :: 0 <= i < answerRow && 0 <= j < cols ==>
        result[i, j] == Dot(m1[i], m2, j, inner)
    {
      for answerColumn := 0 to cols
        invariant forall i, j :: 0 <= i < answerRow && 0 <= j < cols ==>
          result[i, j] == Dot(m1[i], m2, j, inner)
        invariant forall j :: 0 <= j < answerColumn ==>
          result[answerRow, j] == Dot(m1[answerRow], m2, j, inner)
      {
        var sum := Zero();
        for walker := 0 to inner
          invariant sum == Dot(m1[answerRow], m2, answerColumn, walker)
        {
          sum := Add(sum, Mul(m1[answerRow][walker], m2[walker][answerColumn]));
        }
        result[answerRow, answerColumn] := sum;
      }
    }
    r := Rows(result);
    assert forall i :: 0 <= i < rows ==> r[i] == MatMul(m1, m2)[i];
  }

  /** Entry (x + r2 rm, y + r2 cm) of `a` holds s1[rm][cm] * s2[x][y]. */
  ghost predicate Placed(a: array2<Complex>, s1: Matrix, s2: Matrix, rm: nat, cm: nat, x: nat, y: nat)
    reads a
  {
    && rm < |s1| && cm < |s1[rm]| && x < |s2| && y < |s2[x]|
    && Offset(x, rm, |s2|) < a.Length0 && Offset(y, cm, |s2|) < a.Length1
    && a[Offset(x, rm, |s2|), Offset(y, cm, |s2|)] == Mul(s1[rm][cm], s2[x][y])
  }

  /** Two different source cells never share a destination column. */
  lemma ColumnInjective(y: nat, cm: nat, y2: nat, cm2: nat, s1: Matrix, s2: Matrix)
    requires TensorReady(s1, s2)
    requires y < Cols(s2) && y2 < Cols(s2) && cm < Cols(s1) && cm2 < Cols(s1)
    requires Offset(y, cm, |s2|) == Offset(y2, cm2, |s2|)
    ensures y == y2 && cm == cm2
  {
    if Cols(s1) != 1 {
      OffsetInjective(y, cm, y2, cm2, |s2|);
    }
  }

  /** Source cell (rm, cm, x, y) comes before (R, C, X, Y) in `tensor`'s loop order. */
  ghost predicate Before(rm: int, cm: int, x: int, y: int, R: int, C: int, X: int, Y: int) {
    rm < R || (rm == R && (cm < C || (cm == C && (x < X || (x == X && y < Y)))))
  }

  /** Every source cell visited before (R, C, X, Y) has been written. */
  ghost predicate PlacedBefore(a: array2<Complex>, s1: Matrix, s2: Matrix, R: nat, C: nat, X: nat, Y: nat)
    reads a
  {
    forall rm: nat, cm: nat, x: nat, y: nat ::
      rm < |s1| && cm < Cols(s1) && x < |s2| && y < Cols(s2) && Before(rm, cm, x, y, R, C, X, Y) ==>
      Placed(a, s1, s2, rm, cm, x, y)
  }

  lemma NextRow2(a: array2<Complex>, s1: Matrix, s2: Matrix, R: nat, C: nat, X: nat)
    requires PlacedBefore(a, s1, s2, R, C, X, Cols(s2))
    ensures PlacedBefore(a, s1, s2, R, C, X + 1, 0)
  {
  }

  lemma NextColumnMe(a: array2<Complex>, s1: Matrix, s2: Matrix, R: nat, C: nat)
    requires PlacedBefore(a, s1, s2, R, C, |s2|, 0)
    ensures PlacedBefore(a, s1, s2, R, C + 1, 0, 0)
  {
  }

  lemma NextRowMe(a: array2<Complex>, s1: Matrix, s2: Matrix, R: nat)
    requires PlacedBefore(a, s1, s2, R, Cols(s1), 0, 0)
    ensures PlacedBefore(a, s1, s2, R + 1, 0, 0, 0)
  {
  }

  /** Once every source cell is placed, the array holds the Kronecker product. */
  lemma AllPlaced(a: array2<Complex>, s1: Matrix, s2: Matrix)
    requires TensorReady(s1, s2)
    requires a.Length0 == |s1| * |s2| && a.Length1 == Cols(s1) * Cols(s2)
    requires PlacedBefore(a, s1, s2, |s1|, 0, 0, 0)
    ensures Rows(a) == Kron(s1, s2)
  {
    var r, k := Rows(a), Kron(s1, s2);
    forall i | 0 <= i < |s1| * |s2|
      ensures r[i] == k[i]
    {
      forall j | 0 <= j < Cols(s1) * Cols(s2)
        ensures r[i][j] == k[i][j]
      {
        PlacedCell(a, s1, s2, i, j);
      }
    }
  }

  lemma PlacedCell(a: array2<Complex>, s1: Matrix, s2: Matrix, i: nat, j: nat)
    requires TensorReady(s1, s2)
    requires a.Length0 == |s1| * |s2| && a.Length1 == Cols(s1) * Cols(s2)
    requires PlacedBefore(a, s1, s2, |s1|, 0, 0, 0)
    requires i < |s1| * |s2| && j < Cols(s1) * Cols(s2)
    ensures a[i, j] == Kron(s1, s2)[i][j]
  {
    var rm, x := Split(i, |s2|, |s1|);
    var cm, y := Split(j, Cols(s2), Cols(s1));
    if Cols(s1) == 1 {
      assert cm == 0;
    }
    assert Offset(y, cm, |s2|) == j;
    assert Placed(a, s1, s2, rm, cm, x, y);
    KronAtOffset(s1, s2, rm, x, cm, y);
  }

  /** An index below count * stride splits into an outer and an inner index. */
  lemma Split(i: nat, stride: nat, count: nat) returns (outer: nat, inner: nat)
    requires 0 < stride && i < count * stride
    ensures outer < count && inner < stride && Offset(inner, outer, stride) == i
  {
    OffsetSplit(i, stride, count);
    outer, inner := i / stride, i % stride;
  }

  lemma KronAt(s1: Matrix, s2: Matrix, i: nat, j: nat)
    requires Rectangular(s1) && Rectangular(s2) && |s2| >= 1 && Cols(s2) >= 1
    requires i < |s1| * |s2| && j < Cols(s1) * Cols(s2)
    ensures i / |s2| < |s1| && j / Cols(s2) < Cols(s1)
    ensures Kron(s1, s2)[i][j] == Mul(s1[i / |s2|][j / Cols(s2)], s2[i % |s2|][j % Cols(s2)])
  {
    OffsetSplit(i, |s2|, |s1|);
    OffsetSplit(j, Cols(s2), Cols(s1));
  }

  /** The product entry at combined indices, stated without division. */
  lemma KronAtOffset(s1: Matrix, s2: Matrix, q: nat, m: nat, x: nat, y: nat)
    requires Rectangular(s1) && Rectangular(s2) && |s2| >= 1 && Cols(s2) >= 1
    requires q < |s1| && m < |s2| && x < Cols(s1) && y < Cols(s2)
    ensures Offset(m, q, |s2|) < |s1| * |s2| && Offset(y, x, Cols(s2)) < Cols(s1) * Cols(s2)
    ensures Kron(s1, s2)[Offset(m, q, |s2|)][Offset(y, x, Cols(s2))] == Mul(s1[q][x], s2[m][y])
  {
    var i, j := Offset(m, q, |s2|), Offset(y, x, Cols(s2));
    OffsetBound(m, q, |s2|, |s1|);
    OffsetBound(y, x, Cols(s2), Cols(s1));
    OffsetDivMod(m, q, |s2|);
    OffsetDivMod(y, x, Cols(s2));
    KronAt(s1, s2, i, j);
  }

  /** One step of `tensor`'s innermost loop: the write of cell (R, C, X, Y). */
  method PlaceCell(a: array2<Complex>, s1: Matrix, s2: Matrix, R: nat, C: nat, X: nat, Y: nat)
    requires TensorReady(s1, s2)
    requires a.Length0 == |s1| * |s2| && a.Length1 == Cols(s1) * Cols(s2)
    requires R < |s1| && C < Cols(s1) && X < |s2| && Y < Cols(s2)
    requires PlacedBefore(a, s1, s2, R, C, X, Y)
    modifies a
    ensures PlacedBefore(a, s1, s2, R, C, X, Y + 1)
  {
    var r1, c1, r2, c2 := |s1|, Cols(s1), |s2|, Cols(s2);
    var destinationRow := Offset(X, R, r2);
    var destinationColumn := Offset(Y, C, r2);
    OffsetBound(X, R, r2, r1);
    if c1 != 1 {
      OffsetBound(Y, C, r2, c1);
    }
    a[destinationRow, destinationColumn] := Mul(s1[R][C], s2[X][Y]);
    forall rm: nat, cm: nat, x: nat, y: nat | rm < r1 && cm < c1 && x < r2 && y < c2
      && Before(rm, cm, x, y, R, C, X, Y + 1)
      ensures Placed(a, s1, s2, rm, cm, x, y)
    {
      if (rm, cm, x, y) != (R, C, X, Y) {
        assert old(Placed(a, s1, s2, rm, cm, x, y));
        if Offset(x, rm, r2) == destinationRow && Offset(y, cm, r2) == destinationColumn {
          OffsetInjective(x, rm, X, R, r2);
          ColumnInjective(y, cm, Y, C, s1, s2);
        }
      }
    }
  }

  /** `QuantumCircuit.tensor`: four nested loops in the order row of s1, column
      of s1, row of s2, column of s2, each writing one product to a fresh array. */
  method Tensor(s1: Matrix, s2: Matrix) returns (r: Matrix)
    requires TensorReady(s1, s2)
    ensures r == Kron(s1, s2)
  {
    var r1, c1, r2, c2 := |s1|, Cols(s1), |s2|, Cols(s2);
    var result := new Complex[r1 * r2, c1 * c2];
    for rowMe := 0 to r1
      invariant PlacedBefore(result, s1, s2, rowMe, 0, 0, 0)
    {
      for columnMe := 0 to c1
        invariant PlacedBefore(result, s1, s2, rowMe, columnMe, 0, 0)
      {
        for row2 := 0 to r2
          invariant PlacedBefore(result, s1, s2, rowMe, columnMe, row2, 0)
        {
          for column2 := 0 to c2
            invariant PlacedBefore(result, s1, s2, rowMe, columnMe, row2, column2)
          {
            PlaceCell(result, s1, s2, rowMe, columnMe, row2, column2);
          }
          NextRow2(result, s1, s2, rowMe, columnMe, row2);
        }
        NextColumnMe(result, s1, s2, rowMe, columnMe);
      }
      NextRowMe(result, s1, s2, rowMe);
    }
    AllPlaced(result, s1, s2);
    r := Rows(result);
  }
}
