/** Gates acting on one wire: the catalogue of `SingleQuantumGate`. */
module SingleGate {
  import opened ComplexNumbers
  import opened Outcomes
  import opened Matrices
  import opened MatrixAlgebra

  /** `getGateTypes()`: the types offered to users. */
  const GATE_TYPES: seq<string> := ["I", "H", "X", "S", "T"]

  /** `1 / Math.sqrt(2)`. Exact reals have no square root here, so the value is
      left unspecified; every lemma that needs it assumes only h * h == 1/2. */
  const INV_SQRT2: real

  /** The Hadamard matrix with entries +-h (h = 1/sqrt 2 in the engine). */
  function HMatrix(h: real): (m: Matrix)
    ensures IsMatrix(m, 2, 2)
  {
    [[Real(h), Real(h)], [Real(h), Real(-h)]]
  }

  /** The phase matrix diag(1, z). */
  function PhaseMatrix(z: Complex): (m: Matrix)
    ensures IsMatrix(m, 2, 2)
  {
    [[One(), Zero()], [Zero(), z]]
  }

  /** `getGateMatrix()` for a gate of this type. The T phase
      (cos(pi/4), sin(pi/4)) is (1/sqrt 2, 1/sqrt 2). */
  function Matrix(gateType: string): (r: Result<Matrix>)
    ensures r.Ok? <==> gateType in GATE_TYPES || gateType == "Identity"
    ensures r.Ok? ==> IsMatrix(r.value, 2, 2)
    ensures r.Err? ==> r.error == UnsupportedOperation
  {
    match gateType
    case "I" => Ok([[One(), Zero()], [Zero(), One()]])
    case "Identity" => Ok([[One(), Zero()], [Zero(), One()]])
    case "H" => Ok(HMatrix(INV_SQRT2))
    case "X" => Ok([[Zero(), One()], [One(), Zero()]])
    case "S" => Ok(PhaseMatrix(Complex(0.0, 1.0)))
    case "T" => Ok(PhaseMatrix(Complex(INV_SQRT2, INV_SQRT2)))
    case _ => Err(UnsupportedOperation)
  }

  /** "I" and its alias "Identity" are the 2 x 2 identity. */
  lemma IdentityTypes()
    ensures Matrix("I") == Ok(Identity(2)) && Matrix("Identity") == Ok(Identity(2))
  {
    IdentityTwo();
  }

  /** X is the permutation swapping |0> and |1>: it negates a basis state and is
      its own inverse. */
  lemma XIsSwap()
    ensures Matrix("X") == Ok(PermMatrix([1, 0]))
    ensures IsInvolution([1, 0])
  {
    var p := PermMatrix([1, 0]);
    assert p[0] == BasisRow(2, 1) && p[1] == BasisRow(2, 0);
    assert BasisRow(2, 1) == [Zero(), One()];
    assert BasisRow(2, 0) == [One(), Zero()];
    assert p == [[Zero(), One()], [One(), Zero()]];
  }

  /** H times H is the identity when h^2 = 1/2. */
  lemma HSquared(h: real)
    requires h * h == 0.5
    ensures MatMul(HMatrix(h), HMatrix(h)) == Identity(2)
  {
    MatMulTwo(HMatrix(h), HMatrix(h));
    IdentityTwo();
    HadamardProducts(h);
    HalfSums();
  }

  lemma HadamardProducts(h: real)
    ensures Mul(Real(h), Real(h)) == Real(h * h) && Mul(Real(-h), Real(-h)) == Real(h * h)
    ensures Mul(Real(h), Real(-h)) == Real(-(h * h)) && Mul(Real(-h), Real(h)) == Real(-(h * h))
  {
    RealArithmetic(h, h);
    RealArithmetic(-h, -h);
    RealArithmetic(h, -h);
    RealArithmetic(-h, h);
  }

  lemma HalfSums()
    ensures Add(Real(0.5), Real(0.5)) == One()
    ensures Add(Real(0.5), Real(-0.5)) == Zero() && Add(Real(-0.5), Real(0.5)) == Zero()
  {
    RealArithmetic(0.5, 0.5);
    RealArithmetic(0.5, -0.5);
    RealArithmetic(-0.5, 0.5);
  }

  /** H sends |0> to the equal superposition (h, h): each outcome has weight h^2. */
  lemma HOnZero(h: real)
    ensures MultiplyReady(HMatrix(h), BasisColumn(2, 0))
    ensures MatMul(HMatrix(h), BasisColumn(2, 0)) == [[Real(h)], [Real(h)]]
    ensures ModulusSq(Real(h)) == h * h
  {
    MatMulBasisColumn(HMatrix(h), 0);
  }

  /** Applying T twice gives S (the phase (h + hi)^2 is i when h^2 = 1/2). */
  lemma TSquaredIsS(h: real)
    requires h * h == 0.5
    ensures MatMul(PhaseMatrix(Complex(h, h)), PhaseMatrix(Complex(h, h))) == PhaseMatrix(Complex(0.0, 1.0))
  {
    PhaseSquared(Complex(h, h));
    DiagonalSquare(h);
  }

  /** diag(1, t) squared is diag(1, t t). */
  lemma PhaseSquared(t: Complex)
    ensures MatMul(PhaseMatrix(t), PhaseMatrix(t)) == PhaseMatrix(Mul(t, t))
  {
    var m := PhaseMatrix(t);
    assert m[0][0] == One() && m[0][1] == Zero() && m[1][0] == Zero() && m[1][1] == t;
    DiagonalProducts(t);
    MatMulTwo(m, m);
  }

  lemma DiagonalSquare(h: real)
    ensures Mul(Complex(h, h), Complex(h, h)) == Complex(0.0, 2.0 * (h * h))
  {
  }

  /** The entries of diag(1, t) diag(1, t) apart from t t. */
  lemma DiagonalProducts(t: Complex)
    ensures Add(Mul(One(), One()), Mul(Zero(), Zero())) == One()
    ensures Add(Mul(One(), Zero()), Mul(Zero(), t)) == Zero()
    ensures Add(Mul(Zero(), One()), Mul(t, Zero())) == Zero()
    ensures Add(Mul(Zero(), Zero()), Mul(t, t)) == Mul(t, t)
  {
    MulIdentity(One());
    MulZero(One());
    MulZero(t);
    MulZero(Zero());
    AddIdentity(One());
    AddIdentity(Zero());
    AddIdentity(Mul(t, t));
  }

  /** The phase gates leave |0> alone and scale |1> by their phase. */
  lemma PhaseOnBasis(z: Complex)
    ensures MultiplyReady(PhaseMatrix(z), BasisColumn(2, 0))
    ensures MatMul(PhaseMatrix(z), BasisColumn(2, 0)) == BasisColumn(2, 0)
    ensures MatMul(PhaseMatrix(z), BasisColumn(2, 1)) == [[Zero()], [z]]
  {
    var m := PhaseMatrix(z);
    MatMulBasisColumn(m, 0);
    MatMulBasisColumn(m, 1);
    var e0 := BasisColumn(2, 0);
    assert e0[0] == [One()] && e0[1] == [Zero()];
    assert Column(m, 0) == [[One()], [Zero()]];
    assert Column(m, 1) == [[Zero()], [z]];
  }
}
