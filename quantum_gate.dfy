/** What every gate offers the circuit (`QuantumGate`): a type, a column, the
    wires it touches and a matrix. */
module QuantumGates {
  import opened ComplexNumbers
  import opened Outcomes
  import opened Matrices
  import opened MatrixAlgebra
  import opened Bits
  import SingleGate
  import ControlledGate

  /** The two gate classes of the engine. */
  datatype Family = Single | Controlled

  /** A gate as the circuit holds it. */
  datatype Gate = Gate(family: Family, gateType: string, position: int, wires: seq<int>)

  /** `QuantumGate.getIdentityMatrix()`: what an empty cell contributes to a layer. */
  function IdentityMatrix(): (m: Matrix)
    ensures m == Identity(2)
  {
    IdentityTwo();
    [[One(), Zero()], [Zero(), One()]]
  }

  /** The number of wires a gate matrix covers: `Math.round(Math.log(length) /
      Math.log(2))`, which for the heights 2, 4 and 8 is the exact exponent. */
  function Span(m: Matrix): nat {
    Log2(|m|)
  }

  /** `getGateMatrix()`, dispatched on the gate's class. A single-wire gate covers
      one wire; a controlled gate covers every row from its highest to its lowest
      wire; either way the matrix is square with 2^span rows. */
  function GateMatrix(g: Gate): (r: Result<Matrix>)
    ensures r.Ok? ==> 1 <= Span(r.value) <= 3
    ensures r.Ok? ==> IsMatrix(r.value, Pow2(Span(r.value)), Pow2(Span(r.value)))
    ensures r.Ok? && g.family == Single ==> Span(r.value) == 1
    ensures r.Ok? && g.family == Controlled ==>
      |g.wires| >= ControlledGate.Arity(g.gateType) && Span(r.value) == ControlledGate.Extent(g.gateType, g.wires)
    ensures r.Err? ==> r.error in {UnsupportedOperation, IndexOutOfBounds}
  {
    match g.family
    case Single =>
      var r := SingleGate.Matrix(g.gateType);
      if r.Ok? then Log2Pow2(1); r else r
    case Controlled =>
      var r := ControlledGate.Matrix(g.gateType, g.wires);
      if r.Ok? then Log2Pow2(ControlledGate.Extent(g.gateType, g.wires)); r else r
  }
}
