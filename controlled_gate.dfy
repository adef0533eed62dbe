/** Gates with control wires: the catalogue of `ControlledQuantumGate`. The
    wires list names the controls first and the target last; wire 0 is the top
    row of the circuit and the most significant position of a basis index. */
module ControlledGate {
  import opened ComplexNumbers
  import opened Outcomes
  import opened Matrices
  import opened MatrixAlgebra
  import opened Bits
  import SingleGate

  /** `getGateTypes()`: the only types the constructor accepts. */
  const GATE_TYPES: seq<string> := ["CNOT", "C0NOT", "CCNOT", "CC00NOT", "CH", "C0H"]

  /** CNOT, control directly above the target: swaps |10> and |11>. */
  function CnotBelow(): (m: Matrix)
    ensures m == PermMatrix([0, 1, 3, 2])
  {
    var o, l := Zero(), One();
    var m := [[l, o, o, o],
              [o, l, o, o],
              [o, o, o, l],
              [o, o, l, o]];
    PermRows4([0, 1, 3, 2], m);
    m
  }

  /** CNOT, control directly below the target: swaps |01> and |11>. */
  function CnotAbove(): (m: Matrix)
    ensures m == PermMatrix([0, 3, 2, 1])
  {
    var o, l := Zero(), One();
    var m := [[l, o, o, o],
              [o, o, o, l],
              [o, o, l, o],
              [o, l, o, o]];
    PermRows4([0, 3, 2, 1], m);
    m
  }

  /** CNOT, control two rows above the target, the middle wire passing
      through: swaps |100> with |101> and |110> with |111>. */
  function CnotSkip(): (m: Matrix)
    ensures m == PermMatrix([0, 1, 2, 3, 5, 4, 7, 6])
  {
    var o, l := Zero(), One();
    var m := [[l, o, o, o, o, o, o, o],
              [o, l, o, o, o, o, o, o],
              [o, o, l, o, o, o, o, o],
              [o, o, o, l, o, o, o, o],
              [o, o, o, o, o, l, o, o],
              [o, o, o, o, l, o, o, o],
              [o, o, o, o, o, o, o, l],
              [o, o, o, o, o, o, l, o]];
    PermRows8([0, 1, 2, 3, 5, 4, 7, 6], m);
    m
  }

  /** C0NOT: flips the target when the control is 0, swapping |00> and |01>. */
  function C0not(): (m: Matrix)
    ensures m == PermMatrix([1, 0, 2, 3])
  {
    var o, l := Zero(), One();
    var m := [[o, l, o, o],
              [l, o, o, o],
              [o, o, l, o],
              [o, o, o, l]];
    PermRows4([1, 0, 2, 3], m);
    m
  }

  /** CCNOT (Toffoli): flips the target when both controls are 1. */
  function Ccnot(): (m: Matrix)
    ensures m == PermMatrix([0, 1, 2, 3, 4, 5, 7, 6])
  {
    var o, l := Zero(), One();
    var m := [[l, o, o, o, o, o, o, o],
              [o, l, o, o, o, o, o, o],
              [o, o, l, o, o, o, o, o],
              [o, o, o, l, o, o, o, o],
              [o, o, o, o, l, o, o, o],
              [o, o, o, o, o, l, o, o],
              [o, o, o, o, o, o, o, l],
              [o, o, o, o, o, o, l, o]];
    PermRows8([0, 1, 2, 3, 4, 5, 7, 6], m);
    m
  }

  /** CC00NOT: flips the target when both controls are 0. */
  function Cc00not(): (m: Matrix)
    ensures m == PermMatrix([1, 0, 2, 3, 4, 5, 6, 7])
  {
    var o, l := Zero(), One();
    var m := [[o, l, o, o, o, o, o, o],
              [l, o, o, o, o, o, o, o],
              [o, o, l, o, o, o, o, o],
              [o, o, o, l, o, o, o, o],
              [o, o, o, o, l, o, o, o],
              [o, o, o, o, o, l, o, o],
              [o, o, o, o, o, o, l, o],
              [o, o, o, o, o, o, o, l]];
    PermRows8([1, 0, 2, 3, 4, 5, 6, 7], m);
    m
  }

  /** CH: Hadamard (entries +-h) on the target when the control is 1. */
  function Ch(h: real): (m: Matrix)
    ensures IsMatrix(m, 4, 4)
  {
    var o, l := Zero(), One();
    [[l, o, o, o],
     [o, l, o, o],
     [o, o, Real(h), Real(h)],
     [o, o, Real(h), Real(-h)]]
  }

  /** C0H: Hadamard on the target when the control is 0. */
  function C0h(h: real): (m: Matrix)
    ensures IsMatrix(m, 4, 4)
  {
    var o, l := Zero(), One();
    [[Real(h), Real(h), o, o],
     [Real(h), Real(-h), o, o],
     [o, o, l, o],
     [o, o, o, l]]
  }

  /** Row by row, a 4 x 4 literal with one 1 per row at column p[r] is PermMatrix(p). */
  lemma PermRows4(p: seq<nat>, m: Matrix)
    requires |p| == 4 && |m| == 4
    requires forall r :: 0 <= r < 4 ==> m[r] == BasisRow(4, p[r])
    ensures m == PermMatrix(p)
  {
  }

  lemma PermRows8(p: seq<nat>, m: Matrix)
    requires |p| == 8 && |m| == 8
    requires forall r :: 0 <= r < 8 ==> m[r] == BasisRow(8, p[r])
    ensures m == PermMatrix(p)
  {
  }

  function Max(a: int, b: int): int { if a < b then b else a }
  function Min(a: int, b: int): int { if a < b then a else b }
  function Abs(a: int): int { if a < 0 then -a else a }

  /** How many list entries the type reads: two controls and a target for the
      doubly controlled types, one control and a target otherwise. */
  function Arity(gateType: string): nat {
    if gateType == "CCNOT" || gateType == "CC00NOT" then 3 else 2
  }

  /** The wire geometries the catalogue has a matrix for: the control directly
      above the target, or for CNOT also directly below it or two rows above;
      for the doubly controlled types, two adjacent controls with the target
      directly below the lower one. */
  predicate Supported(gateType: string, wires: seq<int>) {
    && gateType in GATE_TYPES
    && |wires| >= Arity(gateType)
    && if Arity(gateType) == 3 then
         Abs(wires[0] - wires[1]) == 1 && wires[2] == Max(wires[0], wires[1]) + 1
       else if gateType == "CNOT" then
         wires[1] == wires[0] + 1 || wires[1] == wires[0] - 1 || wires[1] == wires[0] + 2
       else
         wires[1] == wires[0] + 1
  }

  /** The number of circuit rows from the highest to the lowest wire the gate names. */
  function Extent(gateType: string, wires: seq<int>): int
    requires |wires| >= Arity(gateType)
  {
    if Arity(gateType) == 3 then
      Max(Max(wires[0], wires[1]), wires[2]) - Min(Min(wires[0], wires[1]), wires[2]) + 1
    else
      Max(wires[0], wires[1]) - Min(wires[0], wires[1]) + 1
  }

  /** `getGateMatrix()` for a gate of this type on these wires. A type outside the
      catalogue or an unsupported geometry is `UnsupportedOperation`; reading a
      wire the list does not have is `IndexOutOfBounds`, and the doubly
      controlled types read the third wire only once the first two are adjacent. */
  function Matrix(gateType: string, wires: seq<int>): (r: Result<Matrix>)
    ensures r.Ok? <==> Supported(gateType, wires)
    ensures r.Err? && r.error == IndexOutOfBounds <==>
      gateType in GATE_TYPES &&
      (|wires| < 2 || (|wires| == 2 && Arity(gateType) == 3 && Abs(wires[0] - wires[1]) == 1))
    ensures r.Err? ==> r.error in {IndexOutOfBounds, UnsupportedOperation}
    ensures r.Ok? ==> 2 <= Extent(gateType, wires) <= 3 && IsMatrix(r.value, Pow2(Extent(gateType, wires)), Pow2(Extent(gateType, wires)))
  {
    if gateType !in GATE_TYPES then Err(UnsupportedOperation)
    else if |wires| < 2 then Err(IndexOutOfBounds)
    else
      var w0, w1 := wires[0], wires[1];
      match gateType
      case "CNOT" =>
        if w0 == w1 - 1 then Ok(CnotBelow())
        else if w0 == w1 + 1 then Ok(CnotAbove())
        else if w0 == w1 - 2 then Ok(CnotSkip())
        else Err(UnsupportedOperation)
      case "CCNOT" =>
        if Abs(w0 - w1) != 1 then Err(UnsupportedOperation)
        else if |wires| < 3 then Err(IndexOutOfBounds)
        else if Max(w0, w1) == wires[2] - 1 then Ok(Ccnot())
        else Err(UnsupportedOperation)
      case "CC00NOT" =>
        if Abs(w0 - w1) != 1 then Err(UnsupportedOperation)
        else if |wires| < 3 then Err(IndexOutOfBounds)
        else if Max(w0, w1) == wires[2] - 1 then Ok(Cc00not())
        else Err(UnsupportedOperation)
      case _ =>
        if w0 != w1 - 1 then Err(UnsupportedOperation)
        else if gateType == "C0NOT" then Ok(C0not())
        else if gateType == "CH" then Ok(Ch(SingleGate.INV_SQRT2))
        else Ok(C0h(SingleGate.INV_SQRT2))
  }

  lemma CnotBelowIndex(c: nat, t: nat)
    requires c <= 1 && t <= 1
    ensures IsInvolution([0, 1, 3, 2]) && 2 * c + t < 4 && [0, 1, 3, 2][2 * c + t] == 2 * c + FlipIf(t, c == 1)
  {
  }

  lemma CnotAboveIndex(t: nat, c: nat)
    requires t <= 1 && c <= 1
    ensures IsInvolution([0, 3, 2, 1]) && 2 * t + c < 4 && [0, 3, 2, 1][2 * t + c] == 2 * FlipIf(t, c == 1) + c
  {
  }

  lemma CnotSkipIndex(c: nat, m: nat, t: nat)
    requires c <= 1 && m <= 1 && t <= 1
    ensures IsInvolution([0, 1, 2, 3, 5, 4, 7, 6]) && 4 * c + 2 * m + t < 8 && [0, 1, 2, 3, 5, 4, 7, 6][4 * c + 2 * m + t] == 4 * c + 2 * m + FlipIf(t, c == 1)
  {
  }

  lemma C0notIndex(c: nat, t: nat)
    requires c <= 1 && t <= 1
    ensures IsInvolution([1, 0, 2, 3]) && 2 * c + t < 4 && [1, 0, 2, 3][2 * c + t] == 2 * c + FlipIf(t, c == 0)
  {
  }

  lemma CcnotIndex(a: nat, b: nat, t: nat)
    requires a <= 1 && b <= 1 && t <= 1
    ensures IsInvolution([0, 1, 2, 3, 4, 5, 7, 6]) && 4 * a + 2 * b + t < 8 && [0, 1, 2, 3, 4, 5, 7, 6][4 * a + 2 * b + t] == 4 * a + 2 * b + FlipIf(t, a == 1 && b == 1)
  {
  }

  lemma Cc00notIndex(a: nat, b: nat, t: nat)
    requires a <= 1 && b <= 1 && t <= 1
    ensures IsInvolution([1, 0, 2, 3, 4, 5, 6, 7]) && 4 * a + 2 * b + t < 8 && [1, 0, 2, 3, 4, 5, 6, 7][4 * a + 2 * b + t] == 4 * a + 2 * b + FlipIf(t, a == 0 && b == 0)
  {
  }

  /** `t` negated when `flip` holds. */
  function FlipIf(t: nat, flip: bool): nat
    requires t <= 1
  {
    if flip then 1 - t else t
  }

  /** A permutation gate that is its own inverse sends basis state k to p[k], and
      applying it twice is the identity. */
  lemma PermutationGate(p: seq<nat>, k: nat)
    requires IsInvolution(p) && k < |p|
    ensures MatMul(PermMatrix(p), BasisColumn(|p|, k)) == BasisColumn(|p|, p[k])
    ensures MatMul(PermMatrix(p), PermMatrix(p)) == Identity(|p|)
  {
    PermMatrixOnBasis(p, k);
    PermMatrixSquared(p);
  }

  /** CNOT with the control (bit c) above the target (bit t): the target flips
      exactly when the control is 1. */
  lemma CnotBelowAction(c: nat, t: nat)
    requires c <= 1 && t <= 1
    ensures MatMul(CnotBelow(), BasisColumn(4, 2 * c + t)) == BasisColumn(4, 2 * c + FlipIf(t, c == 1))
    ensures MatMul(CnotBelow(), CnotBelow()) == Identity(4)
  {
    CnotBelowIndex(c, t);
    PermutationGate([0, 1, 3, 2], 2 * c + t);
  }

  /** CNOT with the control (bit c) below the target (bit t). */
  lemma CnotAboveAction(t: nat, c: nat)
    requires c <= 1 && t <= 1
    ensures MatMul(CnotAbove(), BasisColumn(4, 2 * t + c)) == BasisColumn(4, 2 * FlipIf(t, c == 1) + c)
    ensures MatMul(CnotAbove(), CnotAbove()) == Identity(4)
  {
    CnotAboveIndex(t, c);
    PermutationGate([0, 3, 2, 1], 2 * t + c);
  }

  /** CNOT with the control (bit c) two rows above the target (bit t); the middle
      wire (bit m) is untouched. */
  lemma CnotSkipAction(c: nat, m: nat, t: nat)
    requires c <= 1 && m <= 1 && t <= 1
    ensures MatMul(CnotSkip(), BasisColumn(8, 4 * c + 2 * m + t)) == BasisColumn(8, 4 * c + 2 * m + FlipIf(t, c == 1))
    ensures MatMul(CnotSkip(), CnotSkip()) == Identity(8)
  {
    CnotSkipIndex(c, m, t);
    PermutationGate([0, 1, 2, 3, 5, 4, 7, 6], 4 * c + 2 * m + t);
  }

  /** C0NOT: the target flips exactly when the control is 0. */
  lemma C0notAction(c: nat, t: nat)
    requires c <= 1 && t <= 1
    ensures MatMul(C0not(), BasisColumn(4, 2 * c + t)) == BasisColumn(4, 2 * c + FlipIf(t, c == 0))
    ensures MatMul(C0not(), C0not()) == Identity(4)
  {
    C0notIndex(c, t);
    PermutationGate([1, 0, 2, 3], 2 * c + t);
  }

  /** CCNOT: the target flips exactly when both controls are 1. */
  lemma CcnotAction(a: nat, b: nat, t: nat)
    requires a <= 1 && b <= 1 && t <= 1
    ensures MatMul(Ccnot(), BasisColumn(8, 4 * a + 2 * b + t)) == BasisColumn(8, 4 * a + 2 * b + FlipIf(t, a == 1 && b == 1))
    ensures MatMul(Ccnot(), Ccnot()) == Identity(8)
  {
    CcnotIndex(a, b, t);
    PermutationGate([0, 1, 2, 3, 4, 5, 7, 6], 4 * a + 2 * b + t);
  }

  /** CC00NOT: the target flips exactly when both controls are 0. */
  lemma Cc00notAction(a: nat, b: nat, t: nat)
    requires a <= 1 && b <= 1 && t <= 1
    ensures MatMul(Cc00not(), BasisColumn(8, 4 * a + 2 * b + t)) == BasisColumn(8, 4 * a + 2 * b + FlipIf(t, a == 0 && b == 0))
    ensures MatMul(Cc00not(), Cc00not()) == Identity(8)
  {
    Cc00notIndex(a, b, t);
    PermutationGate([1, 0, 2, 3, 4, 5, 6, 7], 4 * a + 2 * b + t);
  }

  /** CH: with the control 0 the state is unchanged; with the control 1 the
      target receives the Hadamard column (h, h) or (h, -h). */
  lemma ChAction(h: real, t: nat)
    requires t <= 1
    ensures MatMul(Ch(h), BasisColumn(4, t)) == BasisColumn(4, t)
    ensures MatMul(Ch(h), BasisColumn(4, 2)) == [[Zero()], [Zero()], [Real(h)], [Real(h)]]
    ensures MatMul(Ch(h), BasisColumn(4, 3)) == [[Zero()], [Zero()], [Real(h)], [Real(-h)]]
  {
    var m := Ch(h);
    assert Column(m, t) == BasisColumn(4, t) by {
      var e := BasisColumn(4, t);
      assert e[0] == [Delta(0, t)] && e[1] == [Delta(1, t)] && e[2] == [Zero()] && e[3] == [Zero()];
    }
    MatMulBasisColumn(m, t);
    MatMulBasisColumn(m, 2);
    MatMulBasisColumn(m, 3);
  }

  /** C0H: with the control 1 the state is unchanged; with the control 0 the
      target receives the Hadamard column. */
  lemma C0hAction(h: real, t: nat)
    requires t <= 1
    ensures MatMul(C0h(h), BasisColumn(4, 2 + t)) == BasisColumn(4, 2 + t)
    ensures MatMul(C0h(h), BasisColumn(4, 0)) == [[Real(h)], [Real(h)], [Zero()], [Zero()]]
    ensures MatMul(C0h(h), BasisColumn(4, 1)) == [[Real(h)], [Real(-h)], [Zero()], [Zero()]]
  {
    var m := C0h(h);
    assert Column(m, 2 + t) == BasisColumn(4, 2 + t) by {
      var e := BasisColumn(4, 2 + t);
      assert e[0] == [Zero()] && e[1] == [Zero()] && e[2] == [Delta(2, 2 + t)] && e[3] == [Delta(3, 2 + t)];
    }
    MatMulBasisColumn(m, 2 + t);
    MatMulBasisColumn(m, 0);
    MatMulBasisColumn(m, 1);
  }

  /** `setGateType(value)` as written: the check looks at the type the gate has
      now, not at `value`, so any string is accepted while the current type is
      supported. */
  function TypeAfterSet(current: string, value: string): (r: Result<string>)
    ensures r.Ok? <==> current in GATE_TYPES
    ensures r.Ok? ==> r.value == value
    ensures r.Err? ==> r.error == IllegalArgument
  {
    if current in GATE_TYPES then Ok(value) else Err(IllegalArgument)
  }

  /** The consequence: a CNOT can be renamed to a type without a matrix, after
      which its matrix fails and no further rename is accepted, not even back to
      a supported type. */
  lemma SetTypeAcceptsUnsupported()
    ensures TypeAfterSet("CNOT", "XYZ") == Ok("XYZ")
    ensures Matrix("XYZ", [0, 1]).Err? && Matrix("XYZ", [0, 1]).error == UnsupportedOperation
    ensures TypeAfterSet("XYZ", "CNOT").Err?
  {
  }

  /** `setGateType` with the check on the new value, as the constructor does it. */
  function TypeAfterSetChecked(current: string, value: string): (r: Result<string>)
    ensures r.Ok? <==> value in GATE_TYPES
    ensures r.Ok? ==> r.value == value
    ensures r.Err? ==> r.error == IllegalArgument
  {
    if value in GATE_TYPES then Ok(value) else Err(IllegalArgument)
  }

  /** With the check on the new value a gate keeps a catalogue type through any
      sequence of renames, so `getGateMatrix` never fails for an unknown type. */
  lemma {:induction false} CheckedRenamesKeepType(current: string, values: seq<string>)
    requires current in GATE_TYPES
    ensures RenameAll(current, values) in GATE_TYPES
    decreases |values|
  {
    if |values| > 0 {
      var next := TypeAfterSetChecked(current, values[0]);
      CheckedRenamesKeepType(if next.Ok? then next.value else current, values[1..]);
    }
  }

  /** The type after applying each rename in turn, a failed rename leaving it as is. */
  function RenameAll(current: string, values: seq<string>): string
    decreases |values|
  {
    if |values| == 0 then current
    else
      var next := TypeAfterSetChecked(current, values[0]);
      RenameAll(if next.Ok? then next.value else current, values[1..])
  }

  /** A controlled gate object. The wires list names the controls first and the
      target last. */
  class ControlledQuantumGate {
    var gateType: string
    var gatePosition: int
    var wires: seq<int>

    /** Field initialisation; `Create` performs the constructor's type check. */
    constructor Init(gateType: string, gatePosition: int, wires: seq<int>)
      ensures this.gateType == gateType && this.gatePosition == gatePosition && this.wires == wires
    {
      this.gateType := gateType;
      this.gatePosition := gatePosition;
      this.wires := wires;
    }

    /** `new ControlledQuantumGate(type, gatePosition, wires)`: refuses a type
      outside the catalogue with `IllegalArgumentException`. */
    static method Create(gateType: string, gatePosition: int, wires: seq<int>) returns (r: Result<ControlledQuantumGate>)
      ensures r.Ok? <==> gateType in GATE_TYPES
      ensures r.Err? ==> r.error == IllegalArgument
      ensures r.Ok? ==> fresh(r.value)
      ensures r.Ok? ==> r.value.gateType == gateType && r.value.gatePosition == gatePosition && r.value.wires == wires
    {
      if gateType in GATE_TYPES {
        var g := new ControlledQuantumGate.Init(gateType, gatePosition, wires);
        r := Ok(g);
      } else {
        r := Err(IllegalArgument);
      }
    }

    /** `setGateType(value)`, as written (see `TypeAfterSet`). */
    method SetGateType(value: string) returns (o: Outcome)
      modifies this
      ensures TypeAfterSet(old(gateType), value) == (if o.Pass? then Ok(gateType) else Err(o.error))
      ensures o.Fail? ==> gateType == old(gateType)
      ensures gatePosition == old(gatePosition) && wires == old(wires)
    {
      var next := TypeAfterSet(gateType, value);
      if next.Ok? {
        gateType := next.value;
        o := Pass;
      } else {
        o := Fail(next.error);
      }
    }

    /** `setGatePosition(value)`: moves the gate to another column. */
    method SetGatePosition(value: int)
      modifies this
      ensures gatePosition == value && gateType == old(gateType) && wires == old(wires)
    {
      gatePosition := value;
    }
  }
}
