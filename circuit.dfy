/** `QuantumCircuit`: the wires, the gates placed on them, and a cache of the
    states already computed, keyed by column. */
module Circuit {
  import opened ComplexNumbers
  import opened Outcomes
  import opened Matrices
  import opened Bits
  import opened Qubits
  import opened WebWire
  import opened QuantumGates
  import opened CircuitSpec

  /** The start qubits of a list of wires, in order. */
  function Starts(wires: seq<QuantumWire>): (starts: seq<Qubit>)
    reads wires
    ensures |starts| == |wires|
    ensures forall i :: 0 <= i < |wires| ==> starts[i] == wires[i].start
  {
    seq(|wires|, i requires 0 <= i < |wires| reads wires => wires[i].start)
  }

  /** No wire's start changed since the circuit last looked. */
  predicate AllClean(wires: seq<QuantumWire>)
    reads wires
  {
    forall i :: 0 <= i < |wires| ==> !wires[i].dirty
  }

  /** The state after column k of a circuit with these wires and gates. */
  ghost function CircuitState(wires: seq<QuantumWire>, gates: seq<Gate>, k: nat): Result<Matrix>
    reads wires
  {
    StateAt(Starts(wires), gates, k)
  }

  /** Every cached column holds the entries of the state computed for it. */
  ghost predicate Coherent(starts: seq<Qubit>, gates: seq<Gate>, cache: map<int, seq<Complex>>) {
    forall k {:trigger cache[k]} :: k in cache ==>
      (k >= 0 && StateAt(starts, gates, k).Ok? && cache[k] == ToCache(StateAt(starts, gates, k).value))
  }

  /** Setting a gate leaves a cache coherent once the columns from the gate's
      column on are evicted: the earlier states do not depend on the gate. */
  lemma CoherentAfterSetGate(starts: seq<Qubit>, gates: seq<Gate>, g: Gate, cache: map<int, seq<Complex>>)
    requires Coherent(starts, gates, cache)
    requires forall k :: k in cache ==> k < g.position
    ensures Coherent(starts, RemoveCovered(gates, g), cache)
    ensures Coherent(starts, WithGate(gates, g), cache)
  {
    forall k | k in cache
      ensures k >= 0 && StateAt(starts, RemoveCovered(gates, g), k) == StateAt(starts, gates, k)
      ensures StateAt(starts, WithGate(gates, g), k) == StateAt(starts, gates, k)
    {
      assert cache[k] == cache[k];
      SetGateKeepsEarlierStates(starts, gates, g, k);
    }
  }

  class QuantumCircuit {
    /** The gates in the order they were set (`getGates`). */
    var gates: seq<Gate>
    /** The wires, wire 0 first (`getWires`). */
    var wires: seq<QuantumWire>
    /** Column k's state as the list of its entries (`stateTransposeCache`). */
    var cache: map<int, seq<Complex>>

    /** `getInitialValues()`: the start qubit of every wire, in wire order. */
    function InitialValues(): (starts: seq<Qubit>)
      reads this, wires
      ensures |starts| == |wires|
      ensures forall i :: 0 <= i < |wires| ==> starts[i] == wires[i].start
    {
      Starts(wires)
    }

    /** The cache is coherent: while every wire is clean, each cached column
        holds the state the circuit computes for it. A dirty wire makes the next
        `getState` drop the whole cache. */
    ghost predicate Valid()
      reads this, wires
    {
      && (forall k :: k in cache ==> k >= 0)
      && (AllClean(wires) ==> Coherent(Starts(wires), gates, cache))
    }

    /** A circuit without wires, gates or cached states. */
    constructor ()
      ensures wires == [] && gates == [] && cache == map[]
      ensures Valid()
    {
      wires := [];
      gates := [];
      cache := map[];
    }

    /** `addWire(wire)`: appends the wire and drops the cache. */
    method AddWireObject(wire: QuantumWire)
      modifies this
      ensures wires == old(wires) + [wire] && gates == old(gates) && cache == map[]
      ensures Valid()
    {
      wires := wires + [wire];
      cache := map[];
    }

    /** `addWire()`: appends a fresh wire starting at |0>. */
    method AddWire()
      modifies this
      ensures |wires| == |old(wires)| + 1 && wires[..|old(wires)|] == old(wires)
      ensures fresh(wires[|old(wires)|]) && wires[|old(wires)|].start == NewQubit(0)
      ensures !wires[|old(wires)|].dirty
      ensures gates == old(gates) && cache == map[]
      ensures Valid()
    {
      var wire := new QuantumWire.Default();
      AddWireObject(wire);
      cache := map[];
    }

    /** `removeLastWire()`: drops the last wire if there is one, then every gate
        naming the wire index one past the remaining wires, and the cache. */
    method RemoveLastWire()
      modifies this
      ensures wires == if |old(wires)| > 0 then old(wires)[..|old(wires)| - 1] else old(wires)
      ensures gates == RemoveOnWire(old(gates), |wires|)
      ensures cache == map[]
      ensures Valid()
    {
      if |wires| > 0 {
        wires := wires[..|wires| - 1];
      }
      gates := RemoveOnWire(gates, |wires|);
      cache := map[];
    }

    /** `setNumberOfQubits(n)`: adds fresh |0> wires or removes wires from the
        end until there are n. Removing wires also removes every gate naming a
        removed wire index; any change of the count drops the cache. At most one
        of the source's two loops runs, so the model picks it up front. */
    method SetNumberOfQubits(n: nat)
      requires Valid()
      modifies this
      ensures |wires| == n
      ensures n <= |old(wires)| ==> wires == old(wires)[..n]
      ensures n >= |old(wires)| ==> wires[..|old(wires)|] == old(wires)
      ensures forall i :: |old(wires)| <= i < n ==> fresh(wires[i]) && wires[i].start == NewQubit(0) && !wires[i].dirty
      ensures gates == if n < |old(wires)| then RemoveFrom(old(gates), n, |old(wires)|) else old(gates)
      ensures cache == if n == |old(wires)| then old(cache) else map[]
      ensures Valid()
    {
      if |wires| <= n {
        GrowTo(n);
      } else {
        ShrinkTo(n);
      }
    }

    /** The first loop of `setNumberOfQubits`: `addWire` until there are n wires. */
    method GrowTo(n: nat)
      requires Valid() && |wires| <= n
      modifies this
      ensures |wires| == n && wires[..|old(wires)|] == old(wires)
      ensures forall i :: |old(wires)| <= i < n ==> fresh(wires[i]) && wires[i].start == NewQubit(0) && !wires[i].dirty
      ensures gates == old(gates)
      ensures cache == if n == |old(wires)| then old(cache) else map[]
      ensures Valid()
    {
      while |wires| < n
        invariant cache == map[] || Valid()
        invariant |old(wires)| <= |wires| <= n && wires[..|old(wires)|] == old(wires)
        invariant forall i :: |old(wires)| <= i < |wires| ==> fresh(wires[i]) && wires[i].start == NewQubit(0) && !wires[i].dirty
        invariant gates == old(gates)
        invariant cache == if |wires| == |old(wires)| then old(cache) else map[]
        decreases n - |wires|
      {
        AddWire();
      }
    }

    /** The second loop of `setNumberOfQubits`: `removeLastWire` until there are
        n wires, each call removing the gates on the wire it drops. */
    method ShrinkTo(n: nat)
      requires Valid() && n <= |wires|
      modifies this
      ensures wires == old(wires)[..n]
      ensures gates == RemoveFrom(old(gates), n, |old(wires)|)
      ensures cache == if n == |old(wires)| then old(cache) else map[]
      ensures Valid()
    {
      while |wires| > n
        invariant cache == map[] || Valid()
        invariant n <= |wires| <= |old(wires)| && wires == old(wires)[..|wires|]
        invariant gates == RemoveFrom(old(gates), |wires|, |old(wires)|)
        invariant cache == if |wires| == |old(wires)| then old(cache) else map[]
        decreases |wires|
      {
        ghost var k := |wires|;
        RemoveLastWire();
        assert RemoveFrom(old(gates), k - 1, |old(wires)|) == RemoveOnWire(RemoveFrom(old(gates), k, |old(wires)|), k - 1);
      }
    }

    /** `xStart()` on one of the circuit's wires: the start flips and the wire
        turns dirty, so the cache no longer has to agree with the new starts;
        the next `getState` drops it and answers for the flipped start. */
    method XStartWire(i: nat)
      requires Valid() && i < |wires|
      modifies wires[i]
      ensures wires[i].start == Negated(old(wires[i].start)) && wires[i].dirty
      ensures !AllClean(wires)
      ensures Valid()
    {
      wires[i].XStart();
    }

    /** The largest cached column, 0 without any. */
    method MaxCachedColumn() returns (m: int)
      ensures m >= 0
      ensures forall k :: k in cache && k >= 0 ==> k <= m
      ensures m == 0 || m in cache
    {
      m := 0;
      var keys := cache.Keys;
      while keys != {}
        invariant keys <= cache.Keys
        invariant m >= 0 && (m == 0 || m in cache)
        invariant forall k :: k in cache && k !in keys && k >= 0 ==> k <= m
        decreases keys
      {
        assert exists k :: k in keys by {
          if forall k :: k !in keys {
            assert false;
          }
        }
        var k :| k in keys;
        if k > m {
          m := k;
        }
        keys := keys - {k};
      }
    }

    /** The eviction loop of `setGate`: drops the cached columns from `position`
        up to the largest cached one. */
    method EvictFrom(position: int)
      requires Valid()
      modifies this
      ensures cache == map k | k in old(cache) && k < position :: old(cache)[k]
      ensures wires == old(wires) && gates == old(gates)
      ensures Valid()
    {
      var maxStateCached := MaxCachedColumn();
      var state := position;
      while state <= maxStateCached
        invariant wires == old(wires) && gates == old(gates)
        invariant state >= position
        invariant cache == map k | k in old(cache) && (k < position || k >= state) :: old(cache)[k]
        decreases maxStateCached - state
      {
        cache := cache - {state};
        state := state + 1;
      }
    }

    /** `setGate(g)`: evicts the cached columns from g's column on, removes the
        gates g covers, then fails if g has no matrix, and otherwise appends g
        unless it is the identity "I" or lies more than one column past the last
        gate. */
    method SetGate(g: Gate) returns (o: Outcome)
      requires Valid()
      modifies this
      ensures o.Pass? <==> GateMatrix(g).Ok?
      ensures o.Fail? ==> o.error == GateMatrix(g).error && gates == RemoveCovered(old(gates), g)
      ensures o.Pass? ==> gates == WithGate(old(gates), g)
      ensures cache == map k | k in old(cache) && k < g.position :: old(cache)[k]
      ensures wires == old(wires)
      ensures Valid()
    {
      EvictFrom(g.position);
      ghost var before := gates;
      ghost var starts := Starts(wires);
      ghost var clean := AllClean(wires);
      if clean {
        CoherentAfterSetGate(starts, before, g, cache);
      }
      gates := RemoveCovered(gates, g);
      var matrix := GateMatrix(g);
      if matrix.Err? {
        o := Fail(matrix.error);
      } else {
        if g.gateType != "I" && g.position < MaxPosition(gates) + 2 {
          gates := gates + [g];
        }
        o := Pass;
      }
      assert Starts(wires) == starts && AllClean(wires) == clean;
    }

    /** The dirty check of `getState`: if any wire's start changed, the cache is
        dropped and every wire is marked clean. */
    method Refresh()
      requires Valid()
      modifies this, wires
      ensures wires == old(wires) && gates == old(gates)
      ensures Starts(wires) == old(Starts(wires))
      ensures old(AllClean(wires)) ==> cache == old(cache)
      ensures !old(AllClean(wires)) ==> cache == map[]
      ensures AllClean(wires) && Valid()
    {
      var anyDirty := false;
      var i := 0;
      while i < |wires|
        invariant 0 <= i <= |wires|
        invariant anyDirty <==> exists j :: 0 <= j < i && wires[j].dirty
      {
        if wires[i].dirty {
          anyDirty := true;
        }
        i := i + 1;
      }
      if anyDirty {
        cache := map[];
        i := 0;
        while i < |wires|
          invariant 0 <= i <= |wires|
          invariant wires == old(wires) && gates == old(gates) && cache == map[]
          invariant forall j :: 0 <= j < |wires| ==> wires[j].start == old(wires[j].start)
          invariant forall j :: 0 <= j < i ==> !wires[j].dirty
        {
          wires[i].ResetDirty();
          i := i + 1;
        }
      }
    }

    /** The tensor step of the scan: the cell's matrix tensored onto the product
        of the wires before it. */
    static method TensorCell(ghost cells: seq<Result<Matrix>>, n: nat, gateMatrix: Matrix, m: Matrix)
      returns (next: Matrix)
      requires WellFormedCells(cells) && IsMatrix(gateMatrix, Pow2(n), Pow2(n))
      requires n < |cells| && cells[n] == Ok(m)
      ensures IsMatrix(next, Pow2(n + Span(m)), Pow2(n + Span(m)))
      ensures Layer(cells, n, gateMatrix) == Layer(cells, n + Span(m), next)
    {
      LayerStep(cells, n, gateMatrix);
      next := Tensor(gateMatrix, m);
    }

    /** The lookup of `getState`'s scan at wire n: the gates are filtered on
        the column and the wire, and the first one kept supplies its matrix; an
        empty result supplies the identity. */
    static method CellAt(gates: seq<Gate>, position: int, n: nat) returns (cell: Result<Matrix>)
      ensures cell == Cell(FindGate(gates, position, n))
    {
      var i := 0;
      assert gates[i..] == gates;
      while i < |gates|
        invariant 0 <= i <= |gates|
        invariant FindGate(gates[i..], position, n) == FindGate(gates, position, n)
        decreases |gates| - i
      {
        if gates[i].position == position && n in gates[i].wires {
          return GateMatrix(gates[i]);
        }
        assert gates[i..][1..] == gates[i + 1..];
        i := i + 1;
      }
      cell := Ok(IdentityMatrix());
    }

    /** `CellAt` as the scan sees it: the cell of wire n among the cells visited. */
    static method ScannedCell(gates: seq<Gate>, position: int, ghost cells: seq<Result<Matrix>>, n: nat)
      returns (cell: Result<Matrix>)
      requires n < |cells|
      requires forall w {:trigger FindGate(gates, position, w)} :: 0 <= w < |cells| ==>
        cells[w] == Cell(FindGate(gates, position, w))
      ensures cell == cells[n]
    {
      cell := CellAt(gates, position, n);
    }

    /** The scan of `getState` over column `position`: the layer matrix, or the
        error a gate matrix raises. */
    static method ColumnLayerOf(gates: seq<Gate>, position: int, wireCount: nat) returns (r: Result<Matrix>)
      ensures r == ColumnLayer(gates, position, wireCount)
    {
      r := ScanCells(gates, position, wireCount, ColumnCells(gates, position, wireCount));
    }

    /** The scan loop, against the cells it visits: a wire holding a gate
        contributes the gate's matrix and the scan skips the wires it covers; an
        empty wire contributes the identity. */
    static method ScanCells(gates: seq<Gate>, position: int, wireCount: nat, ghost cells: seq<Result<Matrix>>)
      returns (r: Result<Matrix>)
      requires |cells| == wireCount && WellFormedCells(cells)
      requires forall w {:trigger FindGate(gates, position, w)} :: 0 <= w < |cells| ==>
        cells[w] == Cell(FindGate(gates, position, w))
      ensures r == Layer(cells, 0, [[One()]])
    {
      var gateMatrix: Matrix := [[One()]];
      var n: nat := 0;
      while n < wireCount
        invariant IsMatrix(gateMatrix, Pow2(n), Pow2(n))
        invariant Layer(cells, 0, [[One()]]) == Layer(cells, n, gateMatrix)
        decreases wireCount - n
      {
        var cell := ScannedCell(gates, position, cells, n);
        if cell.Err? {
          return Err(cell.error);
        }
        gateMatrix := TensorCell(cells, n, gateMatrix, cell.value);
        n := n + Span(cell.value);
      }
      r := Ok(gateMatrix);
    }

    /** `getState(k)`: the state after the gates of columns 0 .. k-1, from the
        cache when it holds column k, and cached once computed. Column 0 is the
        tensor product of the wires' start kets; column k the layer of column
        k-1 times the state of column k-1. */
    method GetState(k: nat) returns (r: Result<Matrix>)
      requires Valid()
      modifies this, wires
      ensures r == CircuitState(wires, gates, k)
      ensures wires == old(wires) && gates == old(gates)
      ensures Starts(wires) == old(Starts(wires))
      ensures r.Ok? ==> k in cache
      ensures AllClean(wires) && Valid()
      ensures old(AllClean(wires)) ==> forall j :: j in old(cache) ==> j in cache && cache[j] == old(cache)[j]
      ensures forall j :: j in cache && j !in old(cache) ==> 0 <= j <= k
      decreases k, 2
    {
      Refresh();
      if k in cache {
        var state := Cached(k);
        return Ok(state);
      }
      r := Compute(k);
    }

    /** The cache miss of `getState(k)` on clean wires: the state computed from
        the start kets or from column k-1, and then cached. */
    method Compute(k: nat) returns (r: Result<Matrix>)
      requires Valid() && AllClean(wires)
      modifies this, wires
      ensures r == CircuitState(wires, gates, k)
      ensures wires == old(wires) && gates == old(gates)
      ensures Starts(wires) == old(Starts(wires))
      ensures r.Ok? ==> k in cache
      ensures AllClean(wires) && Valid()
      ensures forall j :: j in old(cache) ==> j in cache && cache[j] == old(cache)[j]
      ensures forall j :: j in cache && j !in old(cache) ==> 0 <= j <= k
      decreases k, 1
    {
      var starts := InitialValues();
      assert starts == Starts(wires);
      if k == 0 {
        r := StartState(starts, gates);
      } else {
        var layer := ColumnLayerOf(gates, k - 1, |wires|);
        if layer.Err? {
          LayerErrorState(wires, gates, k, layer);
          r := Err(layer.error);
        } else {
          r := Advance(k, layer.value);
        }
      }
      if r.Ok? {
        Remember(k, r.value);
      }
    }

    /** Column k > 0 of `getState` once the scan of column k-1 has produced its
        layer: the state of column k-1, which that call may take from the cache
        or compute, multiplied by the layer. */
    method Advance(k: nat, layer: Matrix) returns (r: Result<Matrix>)
      requires k > 0 && Valid() && AllClean(wires)
      requires ColumnLayer(gates, k - 1, |wires|) == Ok(layer)
      modifies this, wires
      ensures r == CircuitState(wires, gates, k)
      ensures wires == old(wires) && gates == old(gates)
      ensures Starts(wires) == old(Starts(wires))
      ensures AllClean(wires) && Valid()
      ensures forall j :: j in old(cache) ==> j in cache && cache[j] == old(cache)[j]
      ensures forall j :: j in cache && j !in old(cache) ==> 0 <= j <= k
      decreases k, 0
    {
      var previous := GetState(k - 1);
      assert ColumnLayer(gates, k - 1, |wires|) == Ok(layer);
      assert previous == CircuitState(wires, gates, k - 1);
      r := NextState(wires, gates, k, layer, previous);
    }

    /** A cache hit: the column rebuilt from the cached entries is the state. */
    method Cached(k: int) returns (state: Matrix)
      requires Valid() && AllClean(wires) && k in cache
      ensures k >= 0 && CircuitState(wires, gates, k) == Ok(state)
    {
      CacheRoundTrip(CircuitState(wires, gates, k).value, cache[k]);
      state := StateFromCache(cache[k]);
    }

    /** `put(afterIndex, stateToCache(state))`: caching a state the circuit
        computes keeps the cache coherent. */
    method Remember(k: nat, state: Matrix)
      requires Valid() && AllClean(wires)
      requires CircuitState(wires, gates, k) == Ok(state)
      modifies this
      ensures cache == old(cache)[k := ToCache(state)]
      ensures wires == old(wires) && gates == old(gates)
      ensures Starts(wires) == old(Starts(wires)) && AllClean(wires)
      ensures Valid()
    {
      var entries := StateToCache(state);
      cache := cache[k := entries];
    }

    /** Column 0 of `getState`: the start kets tensored together, wire 0 first,
        or a null reference for a start qubit without a ket. */
    static method StartState(starts: seq<Qubit>, ghost gates: seq<Gate>) returns (r: Result<Matrix>)
      ensures r == StateAt(starts, gates, 0)
    {
      var gateMatrix: Matrix := [[One()]];
      var n := 0;
      while n < |starts|
        invariant 0 <= n <= |starts|
        invariant InitialState(starts[..n]) == Ok(gateMatrix)
      {
        assert starts[..n + 1][..n] == starts[..n];
        var ket := Ket(starts[n]);
        if ket.None? {
          assert InitialState(starts).Err?;
          return Err(NullReference);
        }
        gateMatrix := Tensor(gateMatrix, ket.value);
        n := n + 1;
      }
      assert starts[..n] == starts;
      r := Ok(gateMatrix);
    }

    /** A column whose scan fails makes the state after it fail the same way. */
    static lemma LayerErrorState(wires: seq<QuantumWire>, gates: seq<Gate>, k: nat, layer: Result<Matrix>)
      requires k > 0 && layer == ColumnLayer(gates, k - 1, |wires|) && layer.Err?
      ensures CircuitState(wires, gates, k) == Err(layer.error)
    {
    }

    /** Column k > 0 of `getState`: the layer of column k-1 times the state of
        column k-1, with the errors of either passed on. */
    static method NextState(ghost wires: seq<QuantumWire>, ghost gates: seq<Gate>, k: nat, layer: Matrix, previous: Result<Matrix>)
      returns (r: Result<Matrix>)
      requires k > 0
      requires ColumnLayer(gates, k - 1, |wires|) == Ok(layer)
      requires previous == CircuitState(wires, gates, k - 1)
      ensures r == CircuitState(wires, gates, k)
    {
      if previous.Err? {
        return Err(previous.error);
      }
      if Cols(layer) > |previous.value| {
        return Err(IndexOutOfBounds);
      }
      var product := Multiply(layer, previous.value);
      r := Ok(product);
    }

    /** `getQubitProbabilities(k)`: for each wire, first to last, the total
        squared modulus of the rows of state k in which the wire's bit is set. */
    method GetQubitProbabilities(k: nat) returns (r: Result<seq<Complex>>)
      requires Valid()
      modifies this, wires
      ensures var s := CircuitState(wires, gates, k);
        r == if s.Ok? then Ok(Probabilities(s.value, |wires|)) else Err(s.error)
      ensures wires == old(wires) && gates == old(gates)
      ensures Starts(wires) == old(Starts(wires))
      ensures AllClean(wires) && Valid()
      ensures old(AllClean(wires)) ==> forall j :: j in old(cache) ==> j in cache && cache[j] == old(cache)[j]
      ensures forall j :: j in cache && j !in old(cache) ==> 0 <= j <= k
    {
      var s := GetState(k);
      if s.Err? {
        return Err(s.error);
      }
      var probabilities := ProbabilitiesOf(s.value, |wires|);
      r := Ok(probabilities);
    }

    /** The loops of `getQubitProbabilities` over a state: wire by wire from the
        last to the first, the summed squared moduli of the rows with its bit set. */
    static method ProbabilitiesOf(state: Matrix, wireCount: nat) returns (probabilities: seq<Complex>)
      requires forall i :: 0 <= i < |state| ==> |state[i]| >= 1
      ensures probabilities == Probabilities(state, wireCount)
    {
      probabilities := [];
      var wire := wireCount - 1;
      while wire >= 0
        invariant -1 <= wire < wireCount
        invariant |probabilities| == wireCount - 1 - wire
        invariant forall j :: 0 <= j < |probabilities| ==>
          probabilities[j] == Probabilities(state, wireCount)[j]
        decreases wire
      {
        var runningProbability := BitProbability(state, wire);
        probabilities := probabilities + [Real(runningProbability)];
        wire := wire - 1;
      }
    }

    /** The row loop of `getQubitProbabilities` for one bit of the row index. */
    static method BitProbability(state: Matrix, b: nat) returns (p: real)
      requires forall i :: 0 <= i < |state| ==> |state[i]| >= 1
      ensures p == BitWeight(Weights(state), b, |state|)
    {
      ghost var weights := Weights(state);
      p := 0.0;
      var row := 0;
      while row < |state|
        invariant 0 <= row <= |state|
        invariant p == BitWeight(weights, b, row)
      {
        if TestBit(row, b) {
          p := p + ModulusSq(state[row][0]);
        }
        row := row + 1;
      }
    }

    /** `stateToCache(state)`: the entries of a column, top to bottom. */
    method StateToCache(state: Matrix) returns (c: seq<Complex>)
      requires forall i :: 0 <= i < |state| ==> |state[i]| >= 1
      ensures c == ToCache(state)
    {
      c := [];
      var n := 0;
      while n < |state|
        invariant 0 <= n <= |state|
        invariant c == ToCache(state)[..n]
      {
        c := c + [state[n][0]];
        n := n + 1;
      }
    }

    /** `stateFromCache(c)`: the column with entries c. */
    method StateFromCache(c: seq<Complex>) returns (state: Matrix)
      ensures state == FromCache(c)
    {
      state := [];
      var n := 0;
      while n < |c|
        invariant 0 <= n <= |c|
        invariant state == FromCache(c)[..n]
      {
        state := state + [[c[n]]];
        n := n + 1;
      }
    }
  }
}
