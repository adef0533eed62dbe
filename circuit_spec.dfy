/** The circuit's meaning as functions of its start qubits and its gate list:
    which gate a cell holds, the state after each column, the cache format and
    the per-wire probabilities. `QuantumCircuit` is proved against these. */
module CircuitSpec {
  import opened ComplexNumbers
  import opened Outcomes
  import opened Matrices
  import opened MatrixAlgebra
  import opened Bits
  import opened Qubits
  import opened QuantumGates

  /** The gate sits in this column and its wire list names this wire. */
  predicate Occupies(g: Gate, position: int, wire: int) {
    g.position == position && wire in g.wires
  }

  /** The first gate in list order that occupies the cell: `getGate(wire,
      position)`, and the `thisStateGate.get(0)` of the layer scan. */
  function FindGate(gates: seq<Gate>, position: int, wire: int): (r: Option<Gate>)
    ensures r.Some? ==> r.value in gates
  {
    if |gates| == 0 then None
    else if Occupies(gates[0], position, wire) then Some(gates[0])
    else FindGate(gates[1..], position, wire)
  }

  /** The lookup finds nothing exactly when no gate occupies the cell, and
      otherwise the first gate in list order that does. */
  lemma {:induction false} FindGateFirst(gates: seq<Gate>, position: int, wire: int)
    ensures var r := FindGate(gates, position, wire);
      && (r.None? <==> forall i :: 0 <= i < |gates| ==> !Occupies(gates[i], position, wire))
      && (r.Some? ==> exists i :: 0 <= i < |gates| && gates[i] == r.value && Occupies(r.value, position, wire) &&
                                  (forall j :: 0 <= j < i ==> !Occupies(gates[j], position, wire)))
  {
    if |gates| > 0 && !Occupies(gates[0], position, wire) {
      FindGateFirst(gates[1..], position, wire);
      assert forall i :: 0 < i < |gates| ==> gates[i] == gates[1..][i - 1];
      var r := FindGate(gates, position, wire);
      if r.Some? {
        var i :| 0 <= i < |gates[1..]| && gates[1..][i] == r.value && Occupies(r.value, position, wire) &&
                 (forall j :: 0 <= j < i ==> !Occupies(gates[1..][j], position, wire));
        assert gates[i + 1] == r.value;
        assert forall j :: 0 <= j < i + 1 ==> !Occupies(gates[j], position, wire) by {
          forall j | 0 <= j < i + 1 ensures !Occupies(gates[j], position, wire) {
            if j > 0 { assert gates[j] == gates[1..][j - 1]; }
          }
        }
      }
    }
  }

  /** `getMaxWireGatePosition()`: the largest column of any gate, -1 without gates. */
  function MaxPosition(gates: seq<Gate>): (r: int)
    ensures |gates| == 0 ==> r == -1
    ensures forall i :: 0 <= i < |gates| ==> gates[i].position <= r
    ensures |gates| > 0 ==> exists i :: 0 <= i < |gates| && gates[i].position == r
  {
    if |gates| == 0 then -1
    else if |gates| == 1 then gates[0].position
    else
      var rest := MaxPosition(gates[1..]);
      assert forall i :: 0 < i < |gates| ==> gates[i] == gates[1..][i - 1];
      if gates[0].position < rest then rest else gates[0].position
  }

  /** The gates `keep` accepts, in their original order (`removeIf` with the
      negated test). */
  function Filter(gates: seq<Gate>, keep: Gate -> bool): (r: seq<Gate>)
    ensures |r| <= |gates|
    ensures forall g :: g in r <==> g in gates && keep(g)
  {
    if |gates| == 0 then []
    else if keep(gates[0]) then [gates[0]] + Filter(gates[1..], keep)
    else Filter(gates[1..], keep)
  }

  /** `setGate`'s removal test: same column, and the old gate's wires include all
      of the new gate's wires. */
  predicate Covered(x: Gate, g: Gate) {
    x.position == g.position && forall w :: w in g.wires ==> w in x.wires
  }

  /** The gate list after `setGate(g)`'s `removeIf`. */
  function RemoveCovered(gates: seq<Gate>, g: Gate): (r: seq<Gate>)
    ensures forall x :: x in r <==> x in gates && !Covered(x, g)
  {
    Filter(gates, (x: Gate) => !Covered(x, g))
  }

  /** The gate list after `removeLastWire`'s `removeIf`: no gate names `wire`. */
  function RemoveOnWire(gates: seq<Gate>, wire: int): (r: seq<Gate>)
    ensures forall x :: x in r <==> x in gates && wire !in x.wires
  {
    Filter(gates, (x: Gate) => wire !in x.wires)
  }

  /** The gate list after `removeLastWire` has run for the wire indices
      m-1 down to n: no gate names any of them. */
  function RemoveFrom(gates: seq<Gate>, n: nat, m: nat): seq<Gate>
    decreases m - n
  {
    if n >= m then gates else RemoveOnWire(RemoveFrom(gates, n + 1, m), n)
  }

  /** After the wires n .. m-1 are removed, a gate remains exactly when it was
      there before and names none of them. */
  lemma {:induction false} RemoveFromGates(gates: seq<Gate>, n: nat, m: nat)
    ensures forall x :: x in RemoveFrom(gates, n, m) <==> x in gates && forall w :: n <= w < m ==> w !in x.wires
    decreases m - n
  {
    if n < m {
      RemoveFromGates(gates, n + 1, m);
    }
  }

  /** The state before any gate: the kets of the start qubits tensored in wire
      order onto [[1]]. A start qubit without amplitudes makes the product
      dereference null. */
  function InitialState(starts: seq<Qubit>): (r: Result<Matrix>)
    ensures r.Ok? <==> forall i :: 0 <= i < |starts| ==> Ket(starts[i]).Some?
    ensures r.Err? ==> r.error == NullReference
    ensures r.Ok? ==> IsMatrix(r.value, Pow2(|starts|), 1)
    decreases |starts|
  {
    if |starts| == 0 then Ok([[One()]])
    else
      var n := |starts| - 1;
      var prefix := InitialState(starts[..n]);
      assert forall i :: 0 <= i < n ==> starts[i] == starts[..n][i];
      if prefix.Err? then Err(prefix.error)
      else match Ket(starts[n])
        case None => Err(NullReference)
        case Some(k) => Ok(Kron(prefix.value, k))
  }

  /** What a cell contributes to its column's layer: the matrix of the gate
      found there, or the 2 x 2 identity when the cell is empty. */
  function Cell(found: Option<Gate>): (r: Result<Matrix>)
    ensures r.Ok? ==> Span(r.value) >= 1 && IsMatrix(r.value, Pow2(Span(r.value)), Pow2(Span(r.value)))
    ensures r.Err? ==> r.error in {UnsupportedOperation, IndexOutOfBounds}
    ensures found.None? ==> r == Ok(Identity(2)) && Span(r.value) == 1
  {
    match found
    case None =>
      Log2Pow2(1);
      Ok(IdentityMatrix())
    case Some(g) => GateMatrix(g)
  }

  /** Every cell's matrix is square on a whole number of wires, or its error is
      one a gate matrix raises. */
  predicate WellFormedCells(cells: seq<Result<Matrix>>) {
    forall w :: 0 <= w < |cells| ==>
      if cells[w].Ok? then Span(cells[w].value) >= 1 && IsMatrix(cells[w].value, Pow2(Span(cells[w].value)), Pow2(Span(cells[w].value)))
      else cells[w].error in {UnsupportedOperation, IndexOutOfBounds}
  }

  /** What each wire's cell of column `position` contributes. */
  function ColumnCells(gates: seq<Gate>, position: int, wireCount: nat): (cells: seq<Result<Matrix>>)
    ensures |cells| == wireCount && WellFormedCells(cells)
    ensures forall w :: 0 <= w < wireCount ==> cells[w] == Cell(FindGate(gates, position, w))
  {
    seq(wireCount, w requires 0 <= w < wireCount => Cell(FindGate(gates, position, w)))
  }

  /** The product of square matrices on n and s wires is square on n + s wires. */
  lemma KronPowers(acc: Matrix, m: Matrix, n: nat, s: nat)
    requires IsMatrix(acc, Pow2(n), Pow2(n)) && IsMatrix(m, Pow2(s), Pow2(s))
    ensures IsMatrix(Kron(acc, m), Pow2(n + s), Pow2(n + s))
  {
    Pow2Add(n, s);
  }

  /** A column's layer matrix, scanning its cells from wire `n` on with the
      product `acc` of what the wires before `n` contributed: a wire holding a
      gate contributes the gate's matrix and the scan skips the wires it covers,
      an empty wire contributes the 2 x 2 identity. The result covers at least
      all the column's wires: more when the last gate reaches past the last wire. */
  function Layer(cells: seq<Result<Matrix>>, n: nat, acc: Matrix): (r: Result<Matrix>)
    requires WellFormedCells(cells)
    requires IsMatrix(acc, Pow2(n), Pow2(n))
    ensures r.Ok? ==> Log2(|r.value|) >= |cells| && Log2(|r.value|) >= n
    ensures r.Ok? ==> IsMatrix(r.value, Pow2(Log2(|r.value|)), Pow2(Log2(|r.value|)))
    ensures r.Err? ==> r.error in {UnsupportedOperation, IndexOutOfBounds}
    decreases |cells| - n
  {
    if n >= |cells| then
      Log2Pow2(n);
      Ok(acc)
    else if cells[n].Err? then Err(cells[n].error)
    else
      var m := cells[n].value;
      KronPowers(acc, m, n, Span(m));
      Layer(cells, n + Span(m), Kron(acc, m))
  }

  /** The layer of column `position` of a circuit with `wireCount` wires. */
  function ColumnLayer(gates: seq<Gate>, position: int, wireCount: nat): (r: Result<Matrix>)
    ensures r.Ok? ==> Log2(|r.value|) >= wireCount
    ensures r.Ok? ==> IsMatrix(r.value, Pow2(Log2(|r.value|)), Pow2(Log2(|r.value|)))
    ensures r.Err? ==> r.error in {UnsupportedOperation, IndexOutOfBounds}
  {
    Layer(ColumnCells(gates, position, wireCount), 0, [[One()]])
  }

  /** `getState(k)`: the state after the gates of columns 0 .. k-1. The layer is
      built first, then the previous state; a layer wider than the state makes
      `multiply` read past the state's rows. */
  function StateAt(starts: seq<Qubit>, gates: seq<Gate>, k: nat): (r: Result<Matrix>)
    ensures r.Ok? ==> IsMatrix(r.value, Pow2(|starts|), 1)
    ensures r.Err? ==> r.error in {NullReference, UnsupportedOperation, IndexOutOfBounds}
    decreases k
  {
    if k == 0 then InitialState(starts)
    else
      var layer := ColumnLayer(gates, k - 1, |starts|);
      if layer.Err? then Err(layer.error)
      else
        var prev := StateAt(starts, gates, k - 1);
        if prev.Err? then Err(prev.error)
        else if Cols(layer.value) <= |prev.value| then
          Pow2Monotone(|starts|, Log2(|layer.value|));
          Ok(MatMul(layer.value, prev.value))
        else Err(IndexOutOfBounds)
  }

  /** `stateToCache`: the first column of a state. */
  function ToCache(state: Matrix): (c: seq<Complex>)
    requires forall i :: 0 <= i < |state| ==> |state[i]| >= 1
    ensures |c| == |state|
  {
    seq(|state|, i requires 0 <= i < |state| => state[i][0])
  }

  /** `stateFromCache`: a column rebuilt from its entries. */
  function FromCache(c: seq<Complex>): (state: Matrix)
    ensures IsMatrix(state, |c|, 1)
  {
    seq(|c|, i requires 0 <= i < |c| => [c[i]])
  }

  /** The cache loses nothing: a column survives the round trip, and so does a
      cached entry list. */
  lemma CacheRoundTrip(state: Matrix, c: seq<Complex>)
    requires IsMatrix(state, |state|, 1)
    ensures FromCache(ToCache(state)) == state
    ensures ToCache(FromCache(c)) == c
  {
    var back := FromCache(ToCache(state));
    forall i | 0 <= i < |state|
      ensures back[i] == state[i]
    {
      assert state[i] == [state[i][0]];
    }
  }

  /** The squared modulus |state[row][0]|^2 of every row of a column. */
  function Weights(state: Matrix): (w: seq<real>)
    requires forall i :: 0 <= i < |state| ==> |state[i]| >= 1
    ensures |w| == |state|
    ensures forall i :: 0 <= i < |w| ==> w[i] >= 0.0
  {
    seq(|state|, i requires 0 <= i < |state| =>
      ModulusSqNonNegative(state[i][0]);
      ModulusSq(state[i][0]))
  }

  /** The total weight of the rows below n whose bit b is set. */
  function BitWeight(weights: seq<real>, b: nat, n: nat): (w: real)
    requires n <= |weights| && forall i :: 0 <= i < |weights| ==> weights[i] >= 0.0
    ensures w >= 0.0
  {
    if n == 0 then 0.0
    else if TestBit(n - 1, b) then BitWeight(weights, b, n - 1) + weights[n - 1]
    else BitWeight(weights, b, n - 1)
  }

  /** `getQubitProbabilities`: entry j is the probability that wire j measures 1,
      wire j being bit wireCount-1-j of a row index (wire 0 most significant). */
  function Probabilities(state: Matrix, wireCount: nat): (p: seq<Complex>)
    requires forall i :: 0 <= i < |state| ==> |state[i]| >= 1
    ensures |p| == wireCount
    ensures forall j :: 0 <= j < wireCount ==> p[j].im == 0.0 && p[j].re >= 0.0
  {
    seq(wireCount, j requires 0 <= j < wireCount => Real(BitWeight(Weights(state), wireCount - 1 - j, |state|)))
  }

  /** Removing gates that do not occupy a cell leaves the first gate found there
      unchanged. */
  lemma {:induction false} FindGateFiltered(gates: seq<Gate>, keep: Gate -> bool, position: int, wire: int)
    requires forall g :: Occupies(g, position, wire) ==> keep(g)
    ensures FindGate(Filter(gates, keep), position, wire) == FindGate(gates, position, wire)
  {
    if |gates| > 0 {
      FindGateFiltered(gates[1..], keep, position, wire);
      if keep(gates[0]) {
        assert ([gates[0]] + Filter(gates[1..], keep))[1..] == Filter(gates[1..], keep);
      }
    }
  }

  /** A gate appended after the others is found at a cell exactly when no earlier
      gate occupies it; at a cell it does not occupy nothing changes. */
  lemma {:induction false} FindGateAppend(gates: seq<Gate>, g: Gate, position: int, wire: int)
    ensures FindGate(gates + [g], position, wire) ==
      if FindGate(gates, position, wire).None? && Occupies(g, position, wire) then Some(g)
      else FindGate(gates, position, wire)
  {
    if |gates| > 0 {
      assert (gates + [g])[1..] == gates[1..] + [g];
      FindGateAppend(gates[1..], g, position, wire);
    }
  }

  /** Every cell of a column holds the same first gate in both lists. */
  ghost predicate SameColumn(g1: seq<Gate>, g2: seq<Gate>, position: int) {
    forall w :: FindGate(g1, position, w) == FindGate(g2, position, w)
  }

  /** The state after column k-1 depends only on the gates found in columns
      0 .. k-1: a gate set at column k or later leaves it, and its cache entry,
      valid. */
  lemma StateAtLocal(starts: seq<Qubit>, g1: seq<Gate>, g2: seq<Gate>, k: nat)
    requires forall p :: 0 <= p < k ==> SameColumn(g1, g2, p)
    ensures StateAt(starts, g1, k) == StateAt(starts, g2, k)
  {
    SameStates(starts, g1, g2, k);
  }

  /** The states of two gate lists agree after column k. */
  ghost predicate SameState(starts: seq<Qubit>, g1: seq<Gate>, g2: seq<Gate>, k: nat) {
    StateAt(starts, g1, k) == StateAt(starts, g2, k)
  }

  lemma {:induction false} SameStates(starts: seq<Qubit>, g1: seq<Gate>, g2: seq<Gate>, k: nat)
    requires forall p :: 0 <= p < k ==> SameColumn(g1, g2, p)
    ensures SameState(starts, g1, g2, k)
  {
    if k > 0 {
      SameStates(starts, g1, g2, k - 1);
      SameStep(starts, g1, g2, k);
    }
  }

  /** The state after column k is the same for two gate lists that find the same
      gates in column k-1 and agree on the state before it. */
  lemma SameStep(starts: seq<Qubit>, g1: seq<Gate>, g2: seq<Gate>, k: nat)
    requires k > 0
    requires SameColumn(g1, g2, k - 1)
    requires SameState(starts, g1, g2, k - 1)
    ensures SameState(starts, g1, g2, k)
  {
    SameColumnLayer(g1, g2, k - 1, |starts|);
  }

  /** Two gate lists that find the same gate on every wire of a column build the
      same layer for it. */
  lemma SameColumnLayer(g1: seq<Gate>, g2: seq<Gate>, position: int, wireCount: nat)
    requires SameColumn(g1, g2, position)
    ensures ColumnLayer(g1, position, wireCount) == ColumnLayer(g2, position, wireCount)
  {
    var c1, c2 := ColumnCells(g1, position, wireCount), ColumnCells(g2, position, wireCount);
    assert forall w :: 0 <= w < wireCount ==> c1[w] == c2[w];
    assert c1 == c2;
  }

  /** Classical bits, one per wire. */
  predicate IsBits(bits: seq<nat>) {
    forall i :: 0 <= i < |bits| ==> bits[i] <= 1
  }

  /** Start qubits holding classical bits, as `new Qubit(bit)` builds them. */
  function BasisStarts(bits: seq<nat>): (starts: seq<Qubit>)
    ensures |starts| == |bits|
    ensures forall i :: 0 <= i < |bits| ==> starts[i] == NewQubit(bits[i])
  {
    seq(|bits|, i requires 0 <= i < |bits| => NewQubit(bits[i]))
  }

  /** The row index a list of bits names, wire 0's bit the most significant. */
  function Index(bits: seq<nat>): (r: nat)
    requires IsBits(bits)
    ensures r < Pow2(|bits|)
    decreases |bits|
  {
    if |bits| == 0 then 0
    else
      var n := |bits| - 1;
      assert forall i :: 0 <= i < n ==> bits[..n][i] == bits[i];
      bits[n] + 2 * Index(bits[..n])
  }

  /** Wire j's bit is bit |bits|-1-j of the index. */
  lemma {:induction false} IndexBits(bits: seq<nat>, j: nat)
    requires IsBits(bits) && j < |bits|
    ensures TestBit(Index(bits), |bits| - 1 - j) <==> bits[j] == 1
    decreases |bits|
  {
    var n := |bits| - 1;
    var prefix := bits[..n];
    assert forall i :: 0 <= i < n ==> prefix[i] == bits[i];
    assert Index(bits) == bits[n] + 2 * Index(prefix);
    if j == n {
      AppendedBit(Index(prefix), bits[n], 0);
    } else {
      IndexBits(prefix, j);
      AppendedBit(Index(prefix), bits[n], n - 1 - j);
    }
  }

  /** The basis column of classical bits: a single 1, in the row their index names. */
  function BasisState(bits: seq<nat>): Matrix
    requires IsBits(bits)
  {
    BasisColumn(Pow2(|bits|), Index(bits))
  }

  /** Classical start bits give the basis column of their index: wire 0 is the
      most significant factor of the tensor product. */
  lemma {:induction false} InitialStateOfBasis(bits: seq<nat>)
    requires IsBits(bits)
    ensures InitialState(BasisStarts(bits)) == Ok(BasisColumn(Pow2(|bits|), Index(bits)))
    decreases |bits|
  {
    var starts := BasisStarts(bits);
    if |bits| == 0 {
      assert BasisColumn(1, 0) == [[One()]] by {
        assert BasisColumn(1, 0)[0] == [Delta(0, 0)];
      }
    } else {
      var n := |bits| - 1;
      var prefix := bits[..n];
      assert forall i :: 0 <= i < n ==> prefix[i] == bits[i];
      assert starts[..n] == BasisStarts(prefix);
      InitialStateOfBasis(prefix);
      BasisKets(bits[n]);
      var k := Index(prefix);
      KronBasisColumns(Pow2(n), k, 2, bits[n]);
      assert Offset(bits[n], k, 2) == Index(bits);
      assert Pow2(n) * 2 == Pow2(|bits|);
    }
  }

  /** One step of the scan: a wire whose cell holds a matrix tensors it onto
      the product, and the scan goes on past the wires the matrix covers. */
  lemma LayerStep(cells: seq<Result<Matrix>>, n: nat, acc: Matrix)
    requires WellFormedCells(cells)
    requires IsMatrix(acc, Pow2(n), Pow2(n))
    requires n < |cells| && cells[n].Ok?
    ensures IsMatrix(Kron(acc, cells[n].value), Pow2(n + Span(cells[n].value)), Pow2(n + Span(cells[n].value)))
    ensures Layer(cells, n, acc) == Layer(cells, n + Span(cells[n].value), Kron(acc, cells[n].value))
  {
    KronPowers(acc, cells[n].value, n, Span(cells[n].value));
  }

  /** An empty wire tensors one more identity factor onto the product. */
  lemma EmptyCell(cells: seq<Result<Matrix>>, n: nat)
    requires WellFormedCells(cells)
    requires n < |cells| && cells[n] == Ok(Identity(2))
    ensures Layer(cells, n, Identity(Pow2(n))) == Layer(cells, n + 1, Identity(Pow2(n + 1)))
  {
    assert Span(Identity(2)) == 1 by {
      Log2Pow2(1);
    }
    var size := Pow2(n);
    assert Pow2(n + 1) == size * 2;
    var next := Kron(Identity(size), Identity(2));
    assert next == Identity(size * 2) by {
      KronIdentities(size, 2);
    }
    LayerStep(cells, n, Identity(size));
  }

  /** A column without gates is the identity on all its wires. */
  lemma {:induction false} EmptyLayer(cells: seq<Result<Matrix>>, n: nat)
    requires WellFormedCells(cells)
    requires forall w :: 0 <= w < |cells| ==> cells[w] == Ok(Identity(2))
    ensures Layer(cells, n, Identity(Pow2(n))) == Ok(Identity(Pow2(if n < |cells| then |cells| else n)))
    decreases |cells| - n
  {
    if n < |cells| {
      EmptyCell(cells, n);
      EmptyLayer(cells, n + 1);
    }
  }

  /** A column that holds no gate leaves the state as it was. */
  lemma EmptyColumnKeepsState(starts: seq<Qubit>, gates: seq<Gate>, k: nat)
    requires k >= 1
    requires forall i :: 0 <= i < |gates| ==> gates[i].position != k - 1
    ensures StateAt(starts, gates, k) == StateAt(starts, gates, k - 1)
  {
    var column := k - 1;
    var col := ColumnCells(gates, column, |starts|);
    forall w | 0 <= w < |starts|
      ensures FindGate(gates, column, w).None?
    {
      FindGateFirst(gates, column, w);
    }
    assert Identity(Pow2(0)) == [[One()]] by {
      assert Identity(1)[0] == [Delta(0, 0)];
    }
    EmptyLayer(col, 0);
    var prev := StateAt(starts, gates, k - 1);
    if prev.Ok? {
      IdentityLeftUnit(prev.value);
    }
  }

  lemma ModulusSqDelta(a: int, b: int)
    ensures ModulusSq(Delta(a, b)) == if a == b then 1.0 else 0.0
  {
    var d := Delta(a, b);
    if a == b {
      assert d == One();
    } else {
      assert d == Zero();
    }
    ModulusSqNonNegative(d);
  }

  /** A basis column has all its weight on its own row. */
  lemma WeightsOfBasis(size: nat, k: nat)
    ensures forall i :: 0 <= i < size ==> Weights(BasisColumn(size, k))[i] == if i == k then 1.0 else 0.0
  {
    var col := BasisColumn(size, k);
    forall i | 0 <= i < size
      ensures Weights(col)[i] == if i == k then 1.0 else 0.0
    {
      assert col[i][0] == Delta(i, k);
      ModulusSqDelta(i, k);
    }
  }

  /** Measuring weights that sit on row k alone: bit b has weight 1 exactly when
      row k has bit b set. */
  lemma {:induction false} BitWeightOfIndicator(weights: seq<real>, k: nat, b: nat, n: nat)
    requires n <= |weights| && k < |weights|
    requires forall i :: 0 <= i < |weights| ==> weights[i] == if i == k then 1.0 else 0.0
    ensures BitWeight(weights, b, n) == if k < n && TestBit(k, b) then 1.0 else 0.0
  {
    if n > 0 {
      BitWeightOfIndicator(weights, k, b, n - 1);
    }
  }

  /** The probabilities of a basis column read back the bits it encodes. */
  lemma ProbabilitiesOfBasis(bits: seq<nat>)
    requires IsBits(bits)
    ensures forall j :: 0 <= j < |bits| ==>
      Probabilities(BasisState(bits), |bits|)[j] == if bits[j] == 1 then One() else Zero()
  {
    forall j | 0 <= j < |bits| {
      ProbabilityOfBasisBit(bits, j);
    }
  }

  /** A state whose weight is all on row k gives wire j probability 1 exactly
      when bit wireCount-1-j of k is set. */
  lemma ProbabilityOfIndicator(state: Matrix, wireCount: nat, j: nat, k: nat)
    requires forall i :: 0 <= i < |state| ==> |state[i]| >= 1
    requires j < wireCount && k < |state|
    requires forall i :: 0 <= i < |state| ==> Weights(state)[i] == if i == k then 1.0 else 0.0
    ensures Probabilities(state, wireCount)[j] == if TestBit(k, wireCount - 1 - j) then One() else Zero()
  {
    var b := wireCount - 1 - j;
    BitWeightOfIndicator(Weights(state), k, b, |state|);
    assert Probabilities(state, wireCount)[j] == Real(BitWeight(Weights(state), b, |state|));
  }

  lemma ProbabilityOfBasisBit(bits: seq<nat>, j: nat)
    requires IsBits(bits) && j < |bits|
    ensures Probabilities(BasisState(bits), |bits|)[j] == if bits[j] == 1 then One() else Zero()
  {
    ProbabilityOfBasisIndex(bits, j);
    IndexBits(bits, j);
  }

  lemma ProbabilityOfBasisIndex(bits: seq<nat>, j: nat)
    requires IsBits(bits) && j < |bits|
    ensures Probabilities(BasisColumn(Pow2(|bits|), Index(bits)), |bits|)[j] ==
      if TestBit(Index(bits), |bits| - 1 - j) then One() else Zero()
  {
    ProbabilityOfBasisColumn(Pow2(|bits|), Index(bits), |bits|, j);
  }

  /** The unit column e_k gives wire j probability 1 exactly when bit
      wireCount-1-j of k is set. */
  lemma ProbabilityOfBasisColumn(size: nat, k: nat, wireCount: nat, j: nat)
    requires k < size && j < wireCount
    ensures Probabilities(BasisColumn(size, k), wireCount)[j] == if TestBit(k, wireCount - 1 - j) then One() else Zero()
  {
    WeightsOfBasis(size, k);
    ProbabilityOfIndicator(BasisColumn(size, k), wireCount, j, k);
  }

  /** Without gates in columns 0 .. k-1, the state after them is still the basis
      column of the start bits. */
  lemma {:induction false} UntouchedCircuitKeepsBits(bits: seq<nat>, gates: seq<Gate>, k: nat)
    requires IsBits(bits)
    requires forall i :: 0 <= i < |gates| ==> gates[i].position < 0 || gates[i].position >= k
    ensures StateAt(BasisStarts(bits), gates, k) == Ok(BasisState(bits))
  {
    if k == 0 {
      InitialStateOfBasis(bits);
    } else {
      var starts := BasisStarts(bits);
      UntouchedCircuitKeepsBits(bits, gates, k - 1);
      EmptyColumnKeepsState(starts, gates, k);
      assert StateAt(starts, gates, k) == StateAt(starts, gates, k - 1);
    }
  }

  /** Without gates in columns 0 .. k-1, every wire's probability of measuring 1
      after them is its start bit. */
  lemma UntouchedCircuitProbabilities(bits: seq<nat>, gates: seq<Gate>, k: nat)
    requires IsBits(bits)
    requires forall i :: 0 <= i < |gates| ==> gates[i].position < 0 || gates[i].position >= k
    ensures StateAt(BasisStarts(bits), gates, k).Ok?
    ensures forall j :: 0 <= j < |bits| ==>
      Probabilities(StateAt(BasisStarts(bits), gates, k).value, |bits|)[j] == if bits[j] == 1 then One() else Zero()
  {
    UntouchedCircuitKeepsBits(bits, gates, k);
    ProbabilitiesOfBasis(bits);
  }

  /** The gate list after `setGate(g)` once g's matrix exists: the gates g covers
      are removed, then g is appended unless it is an identity or lies more than
      one column past the last remaining gate. */
  function WithGate(gates: seq<Gate>, g: Gate): (r: seq<Gate>)
    ensures forall x :: x in r ==> x in gates || x == g
    ensures forall x :: x in gates && !Covered(x, g) ==> x in r
    ensures forall x :: x in r && x != g ==> !Covered(x, g)
    ensures g in r <==> g.gateType != "I" && g.position < MaxPosition(RemoveCovered(gates, g)) + 2
  {
    var kept := RemoveCovered(gates, g);
    if g.gateType != "I" && g.position < MaxPosition(kept) + 2 then kept + [g] else kept
  }

  /** Setting a gate changes no other column, whether or not the gate itself is
      kept. */
  lemma WithGateOtherColumns(gates: seq<Gate>, g: Gate, position: int, wire: int)
    requires position != g.position
    ensures FindGate(RemoveCovered(gates, g), position, wire) == FindGate(gates, position, wire)
    ensures FindGate(WithGate(gates, g), position, wire) == FindGate(gates, position, wire)
  {
    var kept := RemoveCovered(gates, g);
    FindGateFiltered(gates, (x: Gate) => !Covered(x, g), position, wire);
    FindGateAppend(kept, g, position, wire);
  }

  /** Setting a gate at column p leaves the states before and right after
      columns 0 .. p-1 as they were: the cached states 0 .. p stay valid. */
  lemma SetGateKeepsEarlierStates(starts: seq<Qubit>, gates: seq<Gate>, g: Gate, k: nat)
    requires k <= g.position
    ensures StateAt(starts, RemoveCovered(gates, g), k) == StateAt(starts, gates, k)
    ensures StateAt(starts, WithGate(gates, g), k) == StateAt(starts, gates, k)
  {
    forall p | 0 <= p < k
      ensures SameColumn(gates, RemoveCovered(gates, g), p) && SameColumn(gates, WithGate(gates, g), p)
    {
      forall w {
        WithGateOtherColumns(gates, g, p, w);
      }
    }
    StateAtLocal(starts, gates, RemoveCovered(gates, g), k);
    StateAtLocal(starts, gates, WithGate(gates, g), k);
  }

  /** A gate on one wire replaces whatever the cell held: afterwards the cell
      holds the new gate, or nothing when it is the identity "I". */
  lemma WithSingleWireGate(gates: seq<Gate>, g: Gate, wire: int)
    requires g.wires == [wire]
    ensures var r := WithGate(gates, g);
      FindGate(r, g.position, wire) == if g in r then Some(g) else None
  {
    var kept := RemoveCovered(gates, g);
    forall i | 0 <= i < |kept|
      ensures !Occupies(kept[i], g.position, wire)
    {
      assert kept[i] in kept;
    }
    FindGateFirst(kept, g.position, wire);
    FindGateAppend(kept, g, g.position, wire);
    assert Covered(g, g);
  }
}
