/** A qubit: a pair of amplitudes (x, y), the column vector x|0> + y|1>. */
module Qubits {
  import opened ComplexNumbers
  import opened Outcomes
  import opened Matrices
  import opened MatrixAlgebra

  /** `Qubit(int)` sets both amplitudes only for 0 and 1; for any other value
      both fields stay null, which is `None` here. */
  datatype Qubit = Qubit(x: Option<Complex>, y: Option<Complex>)

  /** `new Qubit(value)`. */
  function NewQubit(value: int): (q: Qubit)
    ensures q.x.Some? <==> value == 0 || value == 1
    ensures q.y.Some? <==> value == 0 || value == 1
  {
    if value == 0 then Qubit(Some(One()), Some(Zero()))
    else if value == 1 then Qubit(Some(Zero()), Some(One()))
    else Qubit(None, None)
  }

  /** `new Qubit()`: |0>. */
  function DefaultQubit(): (q: Qubit)
    ensures q == NewQubit(0)
  {
    Qubit(Some(One()), Some(Zero()))
  }

  /** One of the two basis qubits |0> and |1>. */
  predicate IsBasis(q: Qubit) {
    q == NewQubit(0) || q == NewQubit(1)
  }

  /** The value a basis qubit was built from. */
  function Bit(q: Qubit): (b: nat)
    requires IsBasis(q)
    ensures q == NewQubit(b) && b <= 1
  {
    if q == NewQubit(0) then 0 else 1
  }

  /** `getState()`: the 2 x 1 column {{x}, {y}}; `None` when the amplitudes are
      null, where the engine's first use of them would dereference null. */
  function Ket(q: Qubit): (k: Option<Matrix>)
    ensures k.Some? <==> q.x.Some? && q.y.Some?
    ensures k.Some? ==> IsMatrix(k.value, 2, 1) && k.value[0][0] == q.x.value && k.value[1][0] == q.y.value
  {
    if q.x.Some? && q.y.Some? then Some([[q.x.value], [q.y.value]]) else None
  }

  /** `toString()`: "|0>" when x equals 1, "|1>" otherwise; reading a null x fails. */
  function ToString(q: Qubit): (s: Result<string>)
    ensures s.Err? <==> q.x.None?
    ensures s.Ok? ==> (s.value == "|0>" <==> q.x.value == One())
    ensures s.Ok? ==> s.value == "|0>" || s.value == "|1>"
  {
    match q.x
    case None => Err(NullReference)
    case Some(x) => if x == One() then Ok("|0>") else Ok("|1>")
  }

  /** The basis qubits print as the value they were built from. */
  lemma ToStringOfBasis(value: int)
    requires value == 0 || value == 1
    ensures ToString(NewQubit(value)) == Ok(if value == 0 then "|0>" else "|1>")
  {
    RealIsReal(0.0);
    assert Zero() != One();
  }

  /** A qubit from any other value has no printable form. */
  lemma ToStringOfUnset(value: int)
    requires value != 0 && value != 1
    ensures ToString(NewQubit(value)) == Err(NullReference)
  {
  }

  /** The negation both wire classes apply in `xStart`: |0> becomes |1>, anything
      else (|1> or a qubit without amplitudes) becomes |0>. */
  function Negated(q: Qubit): (r: Qubit)
    ensures IsBasis(r)
    ensures r == NewQubit(1) <==> q == NewQubit(0)
  {
    if q == NewQubit(0) then NewQubit(1) else NewQubit(0)
  }

  /** Negating a basis qubit swaps its value; negating twice restores it. */
  lemma NegatedBasis(q: Qubit)
    requires IsBasis(q)
    ensures Bit(Negated(q)) == 1 - Bit(q)
    ensures Negated(Negated(q)) == q
  {
    assert NewQubit(0) != NewQubit(1);
  }

  /** Negating a qubit without amplitudes repairs it to |0>. */
  lemma NegatedUnset(value: int)
    requires value != 0 && value != 1
    ensures Negated(NewQubit(value)) == NewQubit(0)
  {
  }

  /** The two basis qubits are distinct and orthogonal unit columns. */
  lemma BasisKets(b: nat)
    requires b <= 1
    ensures Ket(NewQubit(b)) == Some(BasisColumn(2, b))
    ensures NewQubit(0) != NewQubit(1)
  {
    assert NewQubit(0).x != NewQubit(1).x;
    var k, e := Ket(NewQubit(b)).value, BasisColumn(2, b);
    assert e[0] == [Delta(0, b)] && e[1] == [Delta(1, b)];
    assert k[0] == e[0] && k[1] == e[1];
    assert k == e;
  }
}
