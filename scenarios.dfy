/** Concrete two-wire circuits built from the CNOT family: a single CNOT flips
    its target exactly when the control is 1, and the three-CNOT SWAP preset of
    the web front end exchanges the two wires' classical values. */
module Scenarios {
  import opened ComplexNumbers
  import opened Outcomes
  import opened Matrices
  import opened MatrixAlgebra
  import opened Bits
  import opened Qubits
  import opened QuantumGates
  import opened CircuitSpec
  import ControlledGate

  /** The state after k columns of a circuit whose wires start in the
      classical bits `bits`. */
  function Run(bits: seq<nat>, gates: seq<Gate>, k: nat): Result<Matrix> {
    StateAt(BasisStarts(bits), gates, k)
  }

  /** The basis state of two bits (c, t) is the unit column of 2c + t. */
  lemma TwoBits(bits: seq<nat>)
    requires |bits| == 2 && bits[0] <= 1 && bits[1] <= 1
    ensures BasisState(bits) == BasisColumn(4, 2 * bits[0] + bits[1])
  {
    assert Index(bits) == 2 * bits[0] + bits[1] by {
      assert bits[..1][..0] == [];
    }
    assert Pow2(2) == 4;
  }

  /** Two values at most 1 are a list of bits. */
  lemma PairBits(bits: seq<nat>)
    requires |bits| == 2 && bits[0] <= 1 && bits[1] <= 1
    ensures IsBits(bits)
  {
  }

  /** Before column p of a circuit with no gate left of p, the classical bits
      (c, t) are the unit column x = 2c + t. */
  lemma BasisStart(bits: seq<nat>, gates: seq<Gate>, p: nat, x: nat)
    requires |bits| == 2 && bits[0] <= 1 && bits[1] <= 1 && x == 2 * bits[0] + bits[1]
    requires forall i :: 0 <= i < |gates| ==> gates[i].position >= p
    ensures Run(bits, gates, p) == Ok(BasisColumn(4, x))
  {
    UntouchedCircuitKeepsBits(bits, gates, p);
    TwoBits(bits);
    var s := BasisState(bits);
    assert s == BasisColumn(4, x);
    assert StateAt(BasisStarts(bits), gates, p) == Ok(s);
  }

  /** A two-wire column whose first cell holds a matrix covering both wires
      has that matrix as its layer. */
  lemma TwoWireLayer(cells: seq<Result<Matrix>>, m: Matrix)
    requires WellFormedCells(cells) && |cells| == 2
    requires cells[0] == Ok(m) && IsMatrix(m, 4, 4)
    ensures Layer(cells, 0, [[One()]]) == Ok(m)
  {
    assert Span(m) == 2 by {
      Log2Pow2(2);
    }
    LayerStep(cells, 0, [[One()]]);
    KronUnitLeft(m);
  }

  /** A column of a two-wire circuit where wire 0 finds a gate with a 4 x 4
      matrix has that matrix as its layer. */
  lemma GateColumn(gates: seq<Gate>, position: int, g: Gate, m: Matrix)
    requires FindGate(gates, position, 0) == Some(g)
    requires GateMatrix(g) == Ok(m) && IsMatrix(m, 4, 4)
    ensures ColumnLayer(gates, position, 2) == Ok(m)
  {
    var cells := ColumnCells(gates, position, 2);
    assert cells[0] == Cell(Some(g));
    TwoWireLayer(cells, m);
  }

  /** Column k, whose layer is m, advances the state before it by m. */
  lemma StepByLayer(starts: seq<Qubit>, gates: seq<Gate>, k: nat, m: Matrix, previous: Matrix)
    requires ColumnLayer(gates, k, |starts|) == Ok(m)
    requires StateAt(starts, gates, k) == Ok(previous) && Cols(m) <= |previous|
    ensures StateAt(starts, gates, k + 1) == Ok(MatMul(m, previous))
  {
  }

  /** Column k, whose layer sends the unit column x to the unit column y,
      takes the basis state x of a two-wire circuit to the basis state y. */
  lemma BasisStep(bits: seq<nat>, gates: seq<Gate>, k: nat, m: Matrix, x: nat, y: nat)
    requires |bits| == 2 && x < 4 && y < 4
    requires ColumnLayer(gates, k, 2) == Ok(m) && IsMatrix(m, 4, 4)
    requires MatMul(m, BasisColumn(4, x)) == BasisColumn(4, y)
    requires Run(bits, gates, k) == Ok(BasisColumn(4, x))
    ensures Run(bits, gates, k + 1) == Ok(BasisColumn(4, y))
  {
    StepByLayer(BasisStarts(bits), gates, k, m, BasisColumn(4, x));
  }

  /** A CNOT in column p, controlled by wire 0, targeting wire 1. */
  function Cnot(p: nat): Gate {
    Gate(Controlled, "CNOT", p, [0, 1])
  }

  /** CNOT with the control directly above the target, in any column. */
  lemma CnotBelowMatrix(position: int)
    ensures GateMatrix(Gate(Controlled, "CNOT", position, [0, 1])) == Ok(ControlledGate.CnotBelow())
  {
  }

  /** CNOT with the control directly below the target, in any column. */
  lemma CnotAboveMatrix(position: int)
    ensures GateMatrix(Gate(Controlled, "CNOT", position, [1, 0])) == Ok(ControlledGate.CnotAbove())
  {
  }

  /** A circuit holding one CNOT in column p: that column is the CNOT matrix. */
  lemma CnotLayer(p: nat)
    ensures ColumnLayer([Cnot(p)], p, 2) == Ok(ControlledGate.CnotBelow())
  {
    CnotBelowMatrix(p);
    GateColumn([Cnot(p)], p, Cnot(p), ControlledGate.CnotBelow());
  }

  /** The single CNOT's layer, and what it does to the basis state (c, t). */
  lemma CnotColumn(c: nat, t: nat, p: nat) returns (m: Matrix)
    requires c <= 1 && t <= 1
    ensures ColumnLayer([Cnot(p)], p, 2) == Ok(m) && IsMatrix(m, 4, 4)
    ensures MatMul(m, BasisColumn(4, 2 * c + t)) == BasisColumn(4, 2 * c + ControlledGate.FlipIf(t, c == 1))
  {
    m := ControlledGate.CnotBelow();
    CnotLayer(p);
    ControlledGate.CnotBelowAction(c, t);
  }

  /** A two-wire circuit with no gate left of column p, starting in the
      classical bits `bits`, whose layer at p takes their unit column to that
      of `out`, holds the basis state of `out` after column p. */
  lemma OneStep(bits: seq<nat>, gates: seq<Gate>, p: nat, m: Matrix, out: seq<nat>, x: nat, y: nat)
    requires |bits| == 2 && bits[0] <= 1 && bits[1] <= 1
    requires |out| == 2 && out[0] <= 1 && out[1] <= 1 && IsBits(out)
    requires x == 2 * bits[0] + bits[1] && y == 2 * out[0] + out[1]
    requires forall i :: 0 <= i < |gates| ==> gates[i].position >= p
    requires ColumnLayer(gates, p, 2) == Ok(m) && IsMatrix(m, 4, 4)
    requires MatMul(m, BasisColumn(4, x)) == BasisColumn(4, y)
    ensures Run(bits, gates, p + 1) == Ok(BasisState(out))
  {
    BasisStart(bits, gates, p, x);
    BasisStep(bits, gates, p, m, x, y);
    TwoBits(out);
    var e := BasisColumn(4, y);
    assert BasisState(out) == e;
    assert Run(bits, gates, p + 1) == Ok(e);
  }

  /** Starting from the classical bits (c, t), the state after the CNOT's
      column is the basis state of (c, t xor c): the target flips exactly when
      the control is 1. */
  lemma CnotFlipsTarget(bits: seq<nat>, p: nat)
    requires |bits| == 2 && bits[0] <= 1 && bits[1] <= 1
    ensures Run(bits, [Cnot(p)], p + 1) == Ok(BasisState([bits[0], ControlledGate.FlipIf(bits[1], bits[0] == 1)]))
  {
    var c, t := bits[0], bits[1];
    var u := ControlledGate.FlipIf(t, c == 1);
    var m := CnotColumn(c, t, p);
    PairBits([c, u]);
    OneStep(bits, [Cnot(p)], p, m, [c, u], 2 * c + t, 2 * c + u);
  }

  /** Measured after the CNOT, the input |1>|0> reads 1 on both wires. */
  lemma CnotOnOneZero(p: nat)
    ensures var s := Run([1, 0], [Cnot(p)], p + 1);
      s.Ok? && Probabilities(s.value, 2) == [One(), One()]
  {
    CnotFlipsTarget([1, 0], p);
    ProbabilitiesOfBasis([1, 1]);
  }

  /** The SWAP preset placed from column p on: CNOT 0 -> 1, then CNOT 1 -> 0,
      then CNOT 0 -> 1. The web front end places it at p = 0. */
  function SwapGates(p: nat): seq<Gate> {
    [Gate(Controlled, "CNOT", p, [0, 1]),
     Gate(Controlled, "CNOT", p + 1, [1, 0]),
     Gate(Controlled, "CNOT", p + 2, [0, 1])]
  }

  /** `setGate` of the first CNOT on an empty circuit keeps it: column 0 is
      below the bound one past the (missing) last gate. */
  lemma PresetFirst()
    ensures WithGate([], SwapGates(0)[0]) == SwapGates(0)[..1]
  {
    assert RemoveCovered([], SwapGates(0)[0]) == [];
  }

  /** `setGate` of the second CNOT keeps the first and appends the second. */
  lemma PresetSecond()
    ensures WithGate(SwapGates(0)[..1], SwapGates(0)[1]) == SwapGates(0)[..2]
  {
    var g := SwapGates(0);
    assert g[..1] == [g[0]];
    assert !Covered(g[0], g[1]);
    assert RemoveCovered([g[0]], g[1]) == [g[0]];
  }

  /** `setGate` of the third CNOT keeps the first two and appends the third. */
  lemma PresetThird()
    ensures WithGate(SwapGates(0)[..2], SwapGates(0)[2]) == SwapGates(0)
  {
    var g := SwapGates(0);
    assert g[..2] == [g[0], g[1]];
    assert [g[0], g[1]][1..] == [g[1]];
    assert !Covered(g[0], g[2]) && !Covered(g[1], g[2]);
    assert RemoveCovered([g[0], g[1]], g[2]) == [g[0], g[1]];
    assert MaxPosition([g[0], g[1]]) == 1;
  }

  /** Placing the three CNOTs one after the other with `setGate` on an empty
      circuit keeps all three, in order. */
  lemma SwapPresetGates()
    ensures var g := SwapGates(0);
      WithGate(WithGate(WithGate([], g[0]), g[1]), g[2]) == g
  {
    PresetFirst();
    PresetSecond();
    PresetThird();
  }

  /** Column p of the SWAP circuit: CNOT controlled by wire 0. */
  lemma SwapLayer0(p: nat)
    ensures ColumnLayer(SwapGates(p), p, 2) == Ok(ControlledGate.CnotBelow())
  {
    var g := SwapGates(p);
    CnotBelowMatrix(p);
    assert FindGate(g, p, 0) == Some(g[0]);
    GateColumn(g, p, g[0], ControlledGate.CnotBelow());
  }

  /** Column p + 1 of the SWAP circuit: CNOT controlled by wire 1. */
  lemma SwapLayer1(p: nat)
    ensures ColumnLayer(SwapGates(p), p + 1, 2) == Ok(ControlledGate.CnotAbove())
  {
    var g := SwapGates(p);
    CnotAboveMatrix(p + 1);
    assert FindGate(g, p + 1, 0) == Some(g[1]) by {
      assert g[1..] == [g[1], g[2]];
    }
    GateColumn(g, p + 1, g[1], ControlledGate.CnotAbove());
  }

  /** Column p + 2 of the SWAP circuit: CNOT controlled by wire 0 again. */
  lemma SwapLayer2(p: nat)
    ensures ColumnLayer(SwapGates(p), p + 2, 2) == Ok(ControlledGate.CnotBelow())
  {
    var g := SwapGates(p);
    CnotBelowMatrix(p + 2);
    assert FindGate(g, p + 2, 0) == Some(g[2]) by {
      var rest := g[1..];
      assert rest == [g[1], g[2]];
      assert rest[1..] == [g[2]];
      assert FindGate(rest[1..], p + 2, 0) == Some(g[2]);
      assert FindGate(rest, p + 2, 0) == Some(g[2]);
    }
    GateColumn(g, p + 2, g[2], ControlledGate.CnotBelow());
  }

  /** The SWAP circuit's three layers are CNOT, upward CNOT, CNOT. */
  lemma SwapLayers(p: nat) returns (below: Matrix, above: Matrix)
    ensures below == ControlledGate.CnotBelow() && above == ControlledGate.CnotAbove()
    ensures IsMatrix(below, 4, 4) && IsMatrix(above, 4, 4)
    ensures ColumnLayer(SwapGates(p), p, 2) == Ok(below)
    ensures ColumnLayer(SwapGates(p), p + 1, 2) == Ok(above)
    ensures ColumnLayer(SwapGates(p), p + 2, 2) == Ok(below)
  {
    below, above := ControlledGate.CnotBelow(), ControlledGate.CnotAbove();
    SwapLayer0(p);
    SwapLayer1(p);
    SwapLayer2(p);
  }

  /** The SWAP circuit's layers, and the basis states they pass the input
      (a, b) through: (a, b), (a, b xor a), (b, b xor a), (b, a). */
  lemma SwapColumns(a: nat, b: nat, p: nat, x0: nat, x1: nat, x2: nat, x3: nat) returns (below: Matrix, above: Matrix)
    requires a <= 1 && b <= 1
    requires var b1 := ControlledGate.FlipIf(b, a == 1);
      x0 == 2 * a + b && x1 == 2 * a + b1 && x2 == 2 * b + b1 && x3 == 2 * b + a
    ensures IsMatrix(below, 4, 4) && IsMatrix(above, 4, 4)
    ensures ColumnLayer(SwapGates(p), p, 2) == Ok(below)
    ensures ColumnLayer(SwapGates(p), p + 1, 2) == Ok(above)
    ensures ColumnLayer(SwapGates(p), p + 2, 2) == Ok(below)
    ensures MatMul(below, BasisColumn(4, x0)) == BasisColumn(4, x1)
    ensures MatMul(above, BasisColumn(4, x1)) == BasisColumn(4, x2)
    ensures MatMul(below, BasisColumn(4, x2)) == BasisColumn(4, x3)
  {
    below, above := SwapLayers(p);
    SwapActions(a, b, below, above, x0, x1, x2, x3);
  }

  /** No gate of the SWAP preset lies left of column p. */
  lemma SwapPositions(p: nat)
    ensures forall i :: 0 <= i < |SwapGates(p)| ==> SwapGates(p)[i].position >= p
  {
  }

  /** The basis states the two CNOT matrices pass (a, b) through. */
  lemma SwapActions(a: nat, b: nat, below: Matrix, above: Matrix, x0: nat, x1: nat, x2: nat, x3: nat)
    requires a <= 1 && b <= 1
    requires below == ControlledGate.CnotBelow() && above == ControlledGate.CnotAbove()
    requires var b1 := ControlledGate.FlipIf(b, a == 1);
      x0 == 2 * a + b && x1 == 2 * a + b1 && x2 == 2 * b + b1 && x3 == 2 * b + a
    ensures MatMul(below, BasisColumn(4, x0)) == BasisColumn(4, x1)
    ensures MatMul(above, BasisColumn(4, x1)) == BasisColumn(4, x2)
    ensures MatMul(below, BasisColumn(4, x2)) == BasisColumn(4, x3)
  {
    var b1 := ControlledGate.FlipIf(b, a == 1);
    ControlledGate.CnotBelowAction(a, b);
    ControlledGate.CnotAboveAction(a, b1);
    assert ControlledGate.FlipIf(a, b1 == 1) == b;
    ControlledGate.CnotBelowAction(b, b1);
    assert ControlledGate.FlipIf(b1, b == 1) == a;
  }

  /** Three columns from column k on whose layers take the unit column x0 to
      x1, x1 to x2 and x2 to x3 take the basis state x0 to x3. */
  lemma ThreeSteps(bits: seq<nat>, gates: seq<Gate>, k: nat, m0: Matrix, m1: Matrix, m2: Matrix, x0: nat, x1: nat, x2: nat, x3: nat)
    requires |bits| == 2 && x0 < 4 && x1 < 4 && x2 < 4 && x3 < 4
    requires IsMatrix(m0, 4, 4) && IsMatrix(m1, 4, 4) && IsMatrix(m2, 4, 4)
    requires ColumnLayer(gates, k, 2) == Ok(m0)
    requires ColumnLayer(gates, k + 1, 2) == Ok(m1)
    requires ColumnLayer(gates, k + 2, 2) == Ok(m2)
    requires MatMul(m0, BasisColumn(4, x0)) == BasisColumn(4, x1)
    requires MatMul(m1, BasisColumn(4, x1)) == BasisColumn(4, x2)
    requires MatMul(m2, BasisColumn(4, x2)) == BasisColumn(4, x3)
    requires Run(bits, gates, k) == Ok(BasisColumn(4, x0))
    ensures Run(bits, gates, k + 3) == Ok(BasisColumn(4, x3))
  {
    BasisStep(bits, gates, k, m0, x0, x1);
    BasisStep(bits, gates, k + 1, m1, x1, x2);
    assert k + 1 + 1 == k + 2;
    BasisStep(bits, gates, k + 2, m2, x2, x3);
    assert k + 2 + 1 == k + 3;
  }

  /** A two-wire circuit with no gate left of column p, starting in the
      classical bits (a, b), whose layers at p, p + 1 and p + 2 take the unit
      column of (a, b) through x1 and x2 to that of (b, a), holds the basis
      state of (b, a) after column p + 2. */
  lemma Exchange(bits: seq<nat>, gates: seq<Gate>, p: nat, m0: Matrix, m1: Matrix, m2: Matrix, out: seq<nat>, x0: nat, x1: nat, x2: nat, x3: nat)
    requires |bits| == 2 && bits[0] <= 1 && bits[1] <= 1
    requires out == [bits[1], bits[0]] && IsBits(out)
    requires x0 == 2 * bits[0] + bits[1] && x1 < 4 && x2 < 4 && x3 == 2 * bits[1] + bits[0]
    requires forall i :: 0 <= i < |gates| ==> gates[i].position >= p
    requires IsMatrix(m0, 4, 4) && IsMatrix(m1, 4, 4) && IsMatrix(m2, 4, 4)
    requires ColumnLayer(gates, p, 2) == Ok(m0)
    requires ColumnLayer(gates, p + 1, 2) == Ok(m1)
    requires ColumnLayer(gates, p + 2, 2) == Ok(m2)
    requires MatMul(m0, BasisColumn(4, x0)) == BasisColumn(4, x1)
    requires MatMul(m1, BasisColumn(4, x1)) == BasisColumn(4, x2)
    requires MatMul(m2, BasisColumn(4, x2)) == BasisColumn(4, x3)
    ensures Run(bits, gates, p + 3) == Ok(BasisState(out))
  {
    BasisStart(bits, gates, p, x0);
    ThreeSteps(bits, gates, p, m0, m1, m2, x0, x1, x2, x3);
    TwoBits(out);
    var e := BasisColumn(4, x3);
    assert BasisState(out) == e;
    assert Run(bits, gates, p + 3) == Ok(e);
  }

  /** The SWAP preset, placed from column p on in an otherwise empty
      two-wire circuit, exchanges the classical values of its two wires. */
  lemma SwapExchanges(bits: seq<nat>, p: nat)
    requires |bits| == 2 && bits[0] <= 1 && bits[1] <= 1
    ensures Run(bits, SwapGates(p), p + 3) == Ok(BasisState([bits[1], bits[0]]))
  {
    var a, b := bits[0], bits[1];
    var b1 := ControlledGate.FlipIf(b, a == 1);
    var x0, x1, x2, x3 := 2 * a + b, 2 * a + b1, 2 * b + b1, 2 * b + a;
    var below, above := SwapColumns(a, b, p, x0, x1, x2, x3);
    SwapPositions(p);
    PairBits([b, a]);
    Exchange(bits, SwapGates(p), p, below, above, below, [b, a], x0, x1, x2, x3);
  }
}
