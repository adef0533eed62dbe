/** Exact facts about the matrices the engine builds: identities, unit columns,
    0/1 permutation matrices and their Kronecker products. */
module MatrixAlgebra {
  import opened ComplexNumbers
  import opened Matrices

  /** `Complex(1)` where a == b, `Complex(0)` elsewhere. */
  function Delta(a: int, b: int): Complex {
    if a == b then One() else Zero()
  }

  /** The n x n identity. */
  function Identity(n: nat): (m: Matrix)
    ensures IsMatrix(m, n, n)
  {
    seq(n, r requires 0 <= r < n => seq(n, c requires 0 <= c < n => Delta(r, c)))
  }

  /** The unit column e_k of height n. */
  function BasisColumn(n: nat, k: int): (m: Matrix)
    ensures IsMatrix(m, n, 1)
  {
    seq(n, r requires 0 <= r < n => [Delta(r, k)])
  }

  /** The unit row of width n with its 1 in column k. */
  function BasisRow(n: nat, k: int): (row: seq<Complex>)
    ensures |row| == n
  {
    seq(n, c requires 0 <= c < n => Delta(c, k))
  }

  /** Column k of m, as an |m| x 1 matrix. */
  function Column(m: Matrix, k: nat): (col: Matrix)
    requires Rectangular(m) && k < Cols(m)
    ensures IsMatrix(col, |m|, 1)
  {
    seq(|m|, r requires 0 <= r < |m| => [m[r][k]])
  }

  /** The 0/1 matrix whose row r holds its only 1 in column p[r]. */
  function PermMatrix(p: seq<nat>): (m: Matrix)
    ensures IsMatrix(m, |p|, |p|)
  {
    seq(|p|, r requires 0 <= r < |p| => BasisRow(|p|, p[r]))
  }

  /** p maps [0, |p|) to itself and is its own inverse. */
  predicate IsInvolution(p: seq<nat>) {
    && (forall i :: 0 <= i < |p| ==> p[i] < |p|)
    && (forall i, j :: 0 <= i < |p| && 0 <= j < |p| && p[i] == j ==> p[j] == i)
  }

  lemma MulDelta(a: int, b: int, c: int, d: int)
    ensures Mul(Delta(a, b), Delta(c, d)) == (if a == b && c == d then One() else Zero())
  {
    if a != b {
      MulZero(Delta(c, d));
    } else if c != d {
      MulZero(One());
    } else {
      MulIdentity(One());
    }
  }

  /** Summing a row against a unit column picks out one entry of the row. */
  lemma {:induction false} DotBasisColumn(row: seq<Complex>, height: nat, k: int, n: nat)
    requires n <= |row| && n <= height
    ensures Dot(row, BasisColumn(height, k), 0, n) == if 0 <= k < n then row[k] else Zero()
  {
    if n > 0 {
      DotBasisColumn(row, height, k, n - 1);
      var e := BasisColumn(height, k);
      var prev := Dot(row, e, 0, n - 1);
      assert Dot(row, e, 0, n) == Add(prev, Mul(row[n - 1], e[n - 1][0]));
      if k == n - 1 {
        MulIdentity(row[n - 1]);
        AddIdentity(row[n - 1]);
      } else {
        MulZero(row[n - 1]);
        AddIdentity(prev);
      }
    }
  }

  /** Summing a unit row against a column of m2 picks out one entry of that column. */
  lemma {:induction false} DotBasisRow(width: nat, k: int, m2: Matrix, c: nat, n: nat)
    requires n <= width && n <= |m2|
    requires forall w :: 0 <= w < n ==> c < |m2[w]|
    ensures Dot(BasisRow(width, k), m2, c, n) == if 0 <= k < n then m2[k][c] else Zero()
  {
    if n > 0 {
      DotBasisRow(width, k, m2, c, n - 1);
      var row := BasisRow(width, k);
      var prev := Dot(row, m2, c, n - 1);
      assert Dot(row, m2, c, n) == Add(prev, Mul(row[n - 1], m2[n - 1][c]));
      if k == n - 1 {
        MulIdentity(m2[n - 1][c]);
        AddIdentity(m2[n - 1][c]);
      } else {
        MulZero(m2[n - 1][c]);
        AddIdentity(prev);
      }
    }
  }

  /** Multiplying by e_k extracts column k. */
  lemma MatMulBasisColumn(m: Matrix, k: nat)
    requires Rectangular(m) && k < Cols(m)
    ensures MultiplyReady(m, BasisColumn(Cols(m), k))
    ensures MatMul(m, BasisColumn(Cols(m), k)) == Column(m, k)
  {
    var e := BasisColumn(Cols(m), k);
    var p := MatMul(m, e);
    forall r | 0 <= r < |m|
      ensures p[r] == Column(m, k)[r]
    {
      DotBasisColumn(m[r], Cols(m), k, Cols(m));
    }
  }

  /** The identity is a left unit of the matrix product. */
  lemma IdentityLeftUnit(m: Matrix)
    requires Rectangular(m) && |m| >= 1
    ensures MultiplyReady(Identity(|m|), m)
    ensures MatMul(Identity(|m|), m) == m
  {
    var n := |m|;
    var p := MatMul(Identity(n), m);
    forall r | 0 <= r < n
      ensures p[r] == m[r]
    {
      assert Identity(n)[r] == BasisRow(n, r);
      forall c | 0 <= c < Cols(m)
        ensures p[r][c] == m[r][c]
      {
        DotBasisRow(n, r, m, c, n);
      }
    }
  }

  /** An involutive 0/1 permutation matrix sends e_k to e_p[k]. */
  lemma PermMatrixOnBasis(p: seq<nat>, k: nat)
    requires IsInvolution(p) && k < |p|
    ensures MultiplyReady(PermMatrix(p), BasisColumn(|p|, k))
    ensures MatMul(PermMatrix(p), BasisColumn(|p|, k)) == BasisColumn(|p|, p[k])
  {
    MatMulBasisColumn(PermMatrix(p), k);
    var col := Column(PermMatrix(p), k);
    forall r | 0 <= r < |p|
      ensures col[r] == BasisColumn(|p|, p[k])[r]
    {
      assert col[r] == [Delta(k, p[r])];
      assert k == p[r] <==> r == p[k];
    }
  }

  /** An involutive 0/1 permutation matrix squares to the identity. */
  lemma PermMatrixSquared(p: seq<nat>)
    requires IsInvolution(p) && |p| >= 1
    ensures MultiplyReady(PermMatrix(p), PermMatrix(p))
    ensures MatMul(PermMatrix(p), PermMatrix(p)) == Identity(|p|)
  {
    var n, m := |p|, PermMatrix(p);
    var sq := MatMul(m, m);
    forall r | 0 <= r < n
      ensures sq[r] == Identity(n)[r]
    {
      forall c | 0 <= c < n
        ensures sq[r][c] == Identity(n)[r][c]
      {
        PermSquaredEntry(p, r, c);
      }
    }
  }

  lemma PermSquaredEntry(p: seq<nat>, r: nat, c: nat)
    requires IsInvolution(p) && r < |p| && c < |p|
    ensures MultiplyReady(PermMatrix(p), PermMatrix(p))
    ensures MatMul(PermMatrix(p), PermMatrix(p))[r][c] == Delta(r, c)
  {
    PermProductEntry(p, r, c);
    var k := p[r];
    assert p[k] == r;
    assert PermMatrix(p)[k][c] == Delta(c, r);
  }

  /** Row r of a 0/1 permutation matrix times any matrix m2 is row p[r] of m2. */
  lemma PermProductEntry(p: seq<nat>, r: nat, c: nat)
    requires forall i :: 0 <= i < |p| ==> p[i] < |p|
    requires r < |p| && c < |p|
    ensures MultiplyReady(PermMatrix(p), PermMatrix(p))
    ensures MatMul(PermMatrix(p), PermMatrix(p))[r][c] == PermMatrix(p)[p[r]][c]
  {
    var n, m := |p|, PermMatrix(p);
    assert m[r] == BasisRow(n, p[r]);
    DotBasisRow(n, p[r], m, c, n);
  }

  /** Tensoring onto the 1 x 1 matrix [[1]] (the engine's starting value) changes nothing. */
  lemma KronUnitLeft(m: Matrix)
    requires Rectangular(m) && |m| >= 1 && Cols(m) >= 1
    ensures Kron([[One()]], m) == m
  {
    var k := Kron([[One()]], m);
    forall i | 0 <= i < |m|
      ensures k[i] == m[i]
    {
      forall j | 0 <= j < Cols(m)
        ensures k[i][j] == m[i][j]
      {
        KronAt([[One()]], m, i, j);
        MulIdentity(m[i][j]);
      }
    }
  }

  /** A row of one entry is the list of that entry. */
  lemma Singleton(row: seq<Complex>)
    requires |row| == 1
    ensures row == [row[0]]
  {
  }

  /** The product of two 0/1 entries is the 0/1 entry of the combined
      indices, as `tensor` multiplies them. */
  lemma DeltaOffsets(m: nat, q: nat, b: nat, i: nat, n: nat)
    requires m < n && b < n
    ensures Mul(Delta(q, i), Delta(m, b)) == Delta(Offset(m, q, n), Offset(b, i, n))
  {
    OffsetsEqual(m, q, b, i, n);
    MulDelta(q, i, m, b);
  }

  /** Two combined indices agree exactly when both of their parts agree. */
  lemma OffsetsEqual(m: nat, q: nat, b: nat, i: nat, n: nat)
    requires m < n && b < n
    ensures Offset(m, q, n) == Offset(b, i, n) <==> m == b && q == i
  {
    if Offset(m, q, n) == Offset(b, i, n) {
      OffsetInjective(m, q, b, i, n);
    }
  }

  /** e_i (height a) tensor e_b (height n) is e_(b + n i) (height a n). */
  lemma KronBasisColumns(a: nat, i: nat, n: nat, b: nat)
    requires i < a && b < n
    ensures Kron(BasisColumn(a, i), BasisColumn(n, b)) == BasisColumn(a * n, Offset(b, i, n))
  {
    var k := Kron(BasisColumn(a, i), BasisColumn(n, b));
    var e := BasisColumn(a * n, Offset(b, i, n));
    forall r | 0 <= r < a * n
      ensures k[r] == e[r]
    {
      OffsetSplit(r, n, a);
      KronBasisEntry(a, i, n, b, r / n, r % n);
    }
  }

  /** Entry (q, m) of a Kronecker product of unit vectors: it is 1 exactly
      when (q, m) is (i, b), the parts of the combined index b + n i. */
  lemma KronBasisEntry(a: nat, i: nat, n: nat, b: nat, q: nat, m: nat)
    requires i < a && b < n && q < a && m < n
    ensures Offset(m, q, n) < a * n
    ensures Kron(BasisColumn(a, i), BasisColumn(n, b))[Offset(m, q, n)]
         == [Delta(Offset(m, q, n), Offset(b, i, n))]
  {
    var u, v := BasisColumn(a, i), BasisColumn(n, b);
    KronColumnsEntry(u, v, q, m);
    assert u[q][0] == Delta(q, i) && v[m][0] == Delta(m, b);
    DeltaOffsets(m, q, b, i, n);
    assert Mul(u[q][0], v[m][0]) == Delta(Offset(m, q, n), Offset(b, i, n));
  }

  /** Row Offset(m, q, |v|) of the product of two columns u and v is u[q] v[m]. */
  lemma KronColumnsEntry(u: Matrix, v: Matrix, q: nat, m: nat)
    requires IsMatrix(u, |u|, 1) && IsMatrix(v, |v|, 1) && q < |u| && m < |v|
    ensures Offset(m, q, |v|) < |u| * |v|
    ensures Kron(u, v)[Offset(m, q, |v|)] == [Mul(u[q][0], v[m][0])]
  {
    KronAtOffset(u, v, q, m, 0, 0);
    Singleton(Kron(u, v)[Offset(m, q, |v|)]);
  }

  /** The Kronecker product of two identities is the identity. */
  lemma KronIdentities(a: nat, b: nat)
    requires a >= 1 && b >= 1
    ensures Kron(Identity(a), Identity(b)) == Identity(a * b)
  {
    var k := Kron(Identity(a), Identity(b));
    forall i | 0 <= i < a * b
      ensures k[i] == Identity(a * b)[i]
    {
      forall j | 0 <= j < a * b
        ensures k[i][j] == Identity(a * b)[i][j]
      {
        KronIdentityAt(a, b, i, j);
      }
    }
  }

  lemma KronIdentityAt(a: nat, b: nat, i: nat, j: nat)
    requires a >= 1 && b >= 1 && i < a * b && j < a * b
    ensures Kron(Identity(a), Identity(b))[i][j] == Delta(i, j)
  {
    OffsetSplit(i, b, a);
    OffsetSplit(j, b, a);
    KronIdentityEntry(a, b, i / b, i % b, j / b, j % b);
  }

  lemma KronIdentityEntry(a: nat, b: nat, q: nat, m: nat, x: nat, y: nat)
    requires q < a && x < a && m < b && y < b
    ensures Offset(m, q, b) < a * b && Offset(y, x, b) < a * b
    ensures Kron(Identity(a), Identity(b))[Offset(m, q, b)][Offset(y, x, b)]
         == Delta(Offset(m, q, b), Offset(y, x, b))
  {
    var u, v := Identity(a), Identity(b);
    assert |u| == a && |v| == b && Cols(u) == a && Cols(v) == b;
    KronAtOffset(u, v, q, m, x, y);
    assert u[q][x] == Delta(q, x) && v[m][y] == Delta(m, y);
    DeltaOffsets(m, q, y, x, b);
  }

  /** The 2 x 2 identity written out. */
  lemma IdentityTwo()
    ensures Identity(2) == [[One(), Zero()], [Zero(), One()]]
  {
    var i := Identity(2);
    assert i[0][0] == One() && i[0][1] == Zero() && i[1][0] == Zero() && i[1][1] == One();
    assert i[0] == [One(), Zero()] && i[1] == [Zero(), One()];
  }

  /** A product of 2 x 2 matrices, entry by entry. */
  lemma MatMulTwo(m1: Matrix, m2: Matrix)
    requires IsMatrix(m1, 2, 2) && IsMatrix(m2, 2, 2)
    ensures MultiplyReady(m1, m2)
    ensures MatMul(m1, m2) == [
      [Add(Mul(m1[0][0], m2[0][0]), Mul(m1[0][1], m2[1][0])), Add(Mul(m1[0][0], m2[0][1]), Mul(m1[0][1], m2[1][1]))],
      [Add(Mul(m1[1][0], m2[0][0]), Mul(m1[1][1], m2[1][0])), Add(Mul(m1[1][0], m2[0][1]), Mul(m1[1][1], m2[1][1]))]]
  {
    var p := MatMul(m1, m2);
    forall i, j | 0 <= i < 2 && 0 <= j < 2
      ensures p[i][j] == Add(Mul(m1[i][0], m2[0][j]), Mul(m1[i][1], m2[1][j]))
    {
      DotTwo(m1[i], m2, j);
    }
    assert p[0] == [p[0][0], p[0][1]] && p[1] == [p[1][0], p[1][1]];
    assert p == [p[0], p[1]];
  }

  lemma DotTwo(row: seq<Complex>, m2: Matrix, c: nat)
    requires |row| == 2 && IsMatrix(m2, 2, 2) && c < 2
    ensures Dot(row, m2, c, 2) == Add(Mul(row[0], m2[0][c]), Mul(row[1], m2[1][c]))
  {
    assert Dot(row, m2, c, 1) == Add(Zero(), Mul(row[0], m2[0][c]));
    AddIdentity(Mul(row[0], m2[0][c]));
  }
}
