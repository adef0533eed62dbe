# Quantum circuit designer: the simulation engine in Dafny

This project models the engine of a quantum-circuit designer. A circuit has:

- **wires**: one qubit each, starting in |0> or |1>;
- **gates** placed on columns of the wires:
  - single-qubit gates: I, H, X, S, T;
  - controlled gates: CNOT, C0NOT, CCNOT, CC00NOT, CH, C0H;
- a **cache** of the states it has already computed, one per column.

`getState(k)` gives the state after the first k columns:

- for k = 0, the Kronecker (tensor) product of the wires' start kets;
- for k > 0, the matrix of column k-1 times the state after column k-1. That matrix is the tensor product, wire by wire, of the gate found on each wire, or the 2x2 identity where there is none.

`getQubitProbabilities(k)` sums the squared moduli of the state's entries whose row index has a given wire's bit set.

The modules follow the source classes:

| module | models |
|---|---|
| `ComplexNumbers` | `Complex` over exact reals |
| `Matrices` | `multiply` and `tensor`: methods over `array2`, proved equal to the functions `MatMul` and `Kron` |
| `MatrixAlgebra` | identity, basis-vector and permutation-matrix facts used by the proofs |
| `Bits` | powers of two and the bit test `row & 2^wire` |
| `Qubits` | `Qubit` |
| `DesktopWire` | the desktop `QuantumWire` (a class) |
| `WebWire` | the web `QuantumWire` (a class with the `dirty` flag) |
| `SingleGate` | `SingleQuantumGate`'s matrices |
| `ControlledGate` | `ControlledQuantumGate`: matrices, and a class with its setters |
| `QuantumGates` | the `QuantumGate` interface: a gate value, its matrix dispatch, the identity |
| `CircuitSpec` | the meaning of a circuit as functions of its start qubits and its gate list |
| `Circuit` | the `QuantumCircuit` class, whose methods are proved against `CircuitSpec` |
| `Scenarios` | whole-circuit consequences, including the web front end's SWAP preset |

The main invariant of `QuantumCircuit` is `Valid()`. While no wire is dirty, every cached column holds exactly the state `StateAt` computes for it.

- `getState` drops the cache when a wire became dirty.
- `setGate` evicts the columns from the gate's column on.
- The lemmas in `CircuitSpec` show why this is enough: the states before a gate's column do not depend on that gate.

Where a Java method throws, the model returns an error value instead (`Result`/`Outcome`). The errors are:

- `UnsupportedOperation`: a gate type without a matrix, or a wire layout the gate does not implement;
- `IllegalArgument`: a gate type that is not in the catalogue;
- `IndexOutOfBounds`: a layer wider than the state;
- `NullReference`: a qubit whose amplitudes were never set.

## Model

| member | source | states |
|---|---|---|
| ComplexNumbers.RealIsReal | Quantum/src/model/Complex.java:27-46 | `new Complex(r)` has real part r and imaginary part 0; `new Complex(0)` is the zero of `new Complex()` |
| ComplexNumbers.AddIdentity | Quantum/src/model/Complex.java:76-78 | adding zero on either side leaves a number unchanged |
| ComplexNumbers.AddCommutative | Quantum/src/model/Complex.java:76-78 | `add` is commutative |
| ComplexNumbers.MulIdentity | Quantum/src/model/Complex.java:87-90 | multiplying by one on either side leaves a number unchanged |
| ComplexNumbers.MulZero | Quantum/src/model/Complex.java:87-90 | multiplying by zero on either side gives zero |
| ComplexNumbers.MulCommutative | Quantum/src/model/Complex.java:87-90 | `multiply` is commutative |
| ComplexNumbers.RealArithmetic | Quantum/src/model/Complex.java:76-90 | on purely real numbers, `add` and `multiply` are real addition and multiplication |
| ComplexNumbers.ModulusSqNonNegative | Quantum/src/model/Complex.java:65-67 | the squared modulus is never negative; it is 0 for zero and 1 for one |
| ComplexNumbers.SquareNonNegative | Quantum/src/model/Complex.java:65-67 | a real square is never negative (the radicand of `modulus`) |
| ComplexNumbers.EqualsComponentwise | Quantum/src/model/Complex.java:106-124 | two numbers are equal exactly when both their real and their imaginary parts are equal |
| Matrices.MatMul | Quantum/src/model/QuantumCircuit.java:28-40 | the product of an r x n and an n x c matrix is r x c |
| Matrices.Multiply | Quantum/src/model/QuantumCircuit.java:28-40 | the triple loop over a fresh 2-D array returns exactly the matrix product `MatMul` |
| Matrices.Rows | Quantum/src/model/QuantumCircuit.java:29 | reading a 2-D array row by row gives a matrix of its dimensions with the same entries |
| Matrices.Kron | Quantum/src/model/QuantumCircuit.java:47-62 | the tensor product of r1 x c1 and r2 x c2 matrices is (r1 r2) x (c1 c2) |
| Matrices.KronAt | Quantum/src/model/QuantumCircuit.java:53-56 | entry (i, j) of the tensor product is s1[i / r2][j / c2] times s2[i % r2][j % c2] |
| Matrices.KronAtOffset | Quantum/src/model/QuantumCircuit.java:53-56 | the entry at the destination row `row2 + r2 * rowMe` and column `column2 + c2 * columnMe` is s1[rowMe][columnMe] times s2[row2][column2] |
| Matrices.PlaceCell | Quantum/src/model/QuantumCircuit.java:53-56 | one innermost step of `tensor` writes its destination cell and keeps every cell already written |
| Matrices.Tensor | Quantum/src/model/QuantumCircuit.java:47-62 | the four nested loops over a fresh 2-D array return exactly the Kronecker product `Kron`, when the right operand is square or the left one a single column |
| Matrices.OffsetBound | Quantum/src/model/QuantumCircuit.java:53-54 | every destination index lies inside the result |
| Matrices.OffsetInjective | Quantum/src/model/QuantumCircuit.java:53-54 | two different loop positions never write the same destination index |
| Matrices.ColumnInjective | Quantum/src/model/QuantumCircuit.java:54 | the destination column (stride = the rows of `state2`) is injective when `tensor`'s precondition holds |
| Matrices.OffsetDivMod | Quantum/src/model/QuantumCircuit.java:53-54 | a destination index divided by the stride gives back the outer loop index, and the remainder gives back the inner one |
| Matrices.OffsetSplit | Quantum/src/model/QuantumCircuit.java:53-54 | every index of the result is written by exactly one pair of loop indices |
| Matrices.Split | Quantum/src/model/QuantumCircuit.java:53-54 | every index of the result has an outer and an inner loop index that produce it |
| Matrices.StrideGap | Quantum/src/model/QuantumCircuit.java:53-54 | consecutive outer indices produce disjoint blocks of destinations |
| Matrices.NextRow2 | Quantum/src/model/QuantumCircuit.java:51-52 | finishing the `column2` loop finishes that `row2` |
| Matrices.NextColumnMe | Quantum/src/model/QuantumCircuit.java:50-51 | finishing the `row2` loop finishes that `columnMe` |
| Matrices.NextRowMe | Quantum/src/model/QuantumCircuit.java:49-50 | finishing the `columnMe` loop finishes that `rowMe` |
| Matrices.AllPlaced | Quantum/src/model/QuantumCircuit.java:47-62 | once every loop has finished, the array read row by row is the Kronecker product |
| Matrices.PlacedCell | Quantum/src/model/QuantumCircuit.java:55-56 | once every loop has finished, each cell holds its Kronecker-product entry |
| MatrixAlgebra.Identity | Quantum/src/model/QuantumGate.java:43-45 | the identity matrix of order n is n x n |
| MatrixAlgebra.BasisColumn | Quantum/src/model/QuantumCircuit.java:157-160 | the column vector with a single 1 at row k is n x 1 (the state of a circuit of basis qubits) |
| MatrixAlgebra.BasisRow | Quantum/src/model/ControlledQuantumGate.java:64-67 | a matrix row with a single 1 has the requested width |
| MatrixAlgebra.Column | Quantum/src/model/QuantumCircuit.java:181-187 | column k of an r x c matrix is r x 1 |
| MatrixAlgebra.PermMatrix | Quantum/src/model/ControlledQuantumGate.java:64-148 | the permutation matrix with row r = the basis row p[r] is square of order \|p\| |
| MatrixAlgebra.MulDelta | Quantum/src/model/Complex.java:87-90 | the product of two 0/1 entries is 1 exactly when both are 1 |
| MatrixAlgebra.DotBasisColumn | Quantum/src/model/QuantumCircuit.java:33-35 | the inner loop of `multiply` against a basis column picks the row entry at the column's 1 |
| MatrixAlgebra.DotBasisRow | Quantum/src/model/QuantumCircuit.java:33-35 | the inner loop of `multiply` from a basis row picks the corresponding row of the right operand |
| MatrixAlgebra.MatMulBasisColumn | Quantum/src/model/QuantumCircuit.java:28-40 | a matrix times the k-th basis column is its k-th column |
| MatrixAlgebra.IdentityLeftUnit | Quantum/src/model/QuantumCircuit.java:170-174 | the identity times a matrix is that matrix: a column without gates does not change the state |
| MatrixAlgebra.PermMatrixOnBasis | Quantum/src/model/ControlledQuantumGate.java:64-148 | an involutive permutation matrix sends basis state k to basis state p[k] |
| MatrixAlgebra.PermMatrixSquared | Quantum/src/model/ControlledQuantumGate.java:64-148 | an involutive permutation matrix is its own inverse |
| MatrixAlgebra.PermSquaredEntry | Quantum/src/model/ControlledQuantumGate.java:64-148 | entry (r, c) of an involutive permutation matrix squared is the identity's entry |
| MatrixAlgebra.PermProductEntry | Quantum/src/model/ControlledQuantumGate.java:64-148 | row r of a permutation matrix squared is row p[r] of the matrix |
| MatrixAlgebra.KronUnitLeft | Quantum/src/model/QuantumCircuit.java:149-159 | tensoring onto the 1 x 1 start matrix `{{1}}` gives the other operand back |
| MatrixAlgebra.Singleton | Quantum/src/model/QuantumCircuit.java:184 | a one-entry row is the list of its entry |
| MatrixAlgebra.DeltaOffsets | Quantum/src/model/QuantumCircuit.java:53-56 | the tensor product of two 0/1 entries is the 0/1 entry at the combined index |
| MatrixAlgebra.OffsetsEqual | Quantum/src/model/QuantumCircuit.java:53-54 | two combined indices are equal exactly when their parts are |
| MatrixAlgebra.KronBasisColumns | Quantum/src/model/QuantumCircuit.java:158-160 | the tensor product of basis columns i and b is the basis column `b + n * i` |
| MatrixAlgebra.KronBasisEntry | Quantum/src/model/QuantumCircuit.java:158-160 | an entry of the tensor product of two basis columns is 1 exactly at the combined index |
| MatrixAlgebra.KronColumnsEntry | Quantum/src/model/QuantumCircuit.java:158-160 | an entry of the tensor product of two column vectors is the product of their entries |
| MatrixAlgebra.KronIdentities | Quantum/src/model/QuantumCircuit.java:170 | the tensor product of identities of order a and b is the identity of order a b |
| MatrixAlgebra.KronIdentityAt | Quantum/src/model/QuantumCircuit.java:170 | each entry of the tensor product of two identities is 1 exactly on the diagonal |
| MatrixAlgebra.KronIdentityEntry | Quantum/src/model/QuantumCircuit.java:170 | the entry at combined indices of the tensor product of two identities is the product of their entries |
| MatrixAlgebra.IdentityTwo | Quantum/src/model/QuantumGate.java:43-45 | the 2 x 2 identity is `{{1, 0}, {0, 1}}` |
| MatrixAlgebra.MatMulTwo | Quantum/src/model/QuantumCircuit.java:28-40 | the product of two 2 x 2 matrices, written out entry by entry |
| MatrixAlgebra.DotTwo | Quantum/src/model/QuantumCircuit.java:33-35 | the two-step inner loop of `multiply` is the sum of two products |
| Bits.Pow2 | Quantum/src/model/QuantumCircuit.java:134 | a power of two is at least 1 |
| Bits.Log2Pow2 | Quantum/src/model/QuantumCircuit.java:168 | the number of wires a gate spans (log2 of its matrix size) recovers the exponent exactly |
| Bits.Pow2Add | Quantum/src/model/QuantumCircuit.java:159-167 | tensoring a 2^a and a 2^b matrix gives a 2^(a+b) one |
| Bits.Pow2Monotone | Quantum/src/model/QuantumCircuit.java:167-174 | more wires never means fewer rows |
| Bits.AppendedBit | Quantum/src/model/QuantumCircuit.java:134 | in `v + 2x`, bit 0 is v and bit b+1 is bit b of x |
| Bits.HighBitsClear | Quantum/src/model/QuantumCircuit.java:134 | a row index below 2^n has no bit set at or above n |
| Qubits.NewQubit | Quantum/src/model/Qubit.java:31-40 | `new Qubit(v)` sets both amplitudes exactly when v is 0 or 1; otherwise both stay null |
| Qubits.DefaultQubit | Quantum/src/model/Qubit.java:22-24 | `new Qubit()` is `new Qubit(0)` |
| Qubits.Bit | Quantum/src/model/Qubit.java:31-40 | every basis qubit is `new Qubit(b)` for exactly one b in {0, 1} |
| Qubits.Ket | Quantum/src/model/Qubit.java:67-69 | `getState()` is the 2 x 1 column (x, y), defined exactly when both amplitudes are set |
| Qubits.ToString | Quantum/src/model/Qubit.java:56-62 | `toString` is "\|0>" exactly when x is one, "\|1>" otherwise, and fails on a null x |
| Qubits.ToStringOfBasis | Quantum/src/model/Qubit.java:56-62 | `new Qubit(0)` prints "\|0>" and `new Qubit(1)` prints "\|1>" |
| Qubits.ToStringOfUnset | Quantum/src/model/Qubit.java:56-62 | a qubit built from any other value dereferences null |
| Qubits.Negated | Quantum/src/model/QuantumWire.java:55-61 | the start after `xStart` is always a basis qubit, and it is \|1> exactly when it was \|0> |
| Qubits.NegatedBasis | Quantum/src/model/QuantumWire.java:55-61 | `xStart` flips a basis start's bit, and doing it twice restores it |
| Qubits.NegatedUnset | Quantum/src/model/QuantumWire.java:55-61 | `xStart` on an unset qubit makes it \|0> |
| Qubits.BasisKets | Quantum/src/model/Qubit.java:67-69 | the ket of `new Qubit(b)` is basis column b of size 2, and \|0> differs from \|1> |
| DesktopWire.QuantumWire.Default | Quantum/src/model/QuantumWire.java:16-18 | a new wire starts at \|0> |
| DesktopWire.QuantumWire.constructor | Quantum/src/model/QuantumWire.java:25-27 | a wire built from v starts at `new Qubit(v)` |
| DesktopWire.QuantumWire.SetStart | Quantum/src/model/QuantumWire.java:48-50 | `setStart(q)` makes q the start |
| DesktopWire.QuantumWire.XStart | Quantum/src/model/QuantumWire.java:55-61 | `xStart` replaces the start by its negation |
| WebWire.QuantumWire.Default | QuantumWeb/target/QuantumWeb-0.0.1-SNAPSHOT/model/QuantumWire.java:21-23 | a new wire starts at \|0> and is clean |
| WebWire.QuantumWire.constructor | QuantumWeb/target/QuantumWeb-0.0.1-SNAPSHOT/model/QuantumWire.java:30-32 | a wire built from v starts at `new Qubit(v)` and is clean |
| WebWire.QuantumWire.XStart | QuantumWeb/target/QuantumWeb-0.0.1-SNAPSHOT/model/QuantumWire.java:51-58 | `xStart` negates the start and marks the wire dirty |
| WebWire.QuantumWire.ResetDirty | QuantumWeb/target/QuantumWeb-0.0.1-SNAPSHOT/model/QuantumWire.java:64-66 | `resetDirty` clears the flag and keeps the start |
| SingleGate.HMatrix | Quantum/src/model/SingleQuantumGate.java:63-65 | the Hadamard matrix is 2 x 2 |
| SingleGate.PhaseMatrix | Quantum/src/model/SingleQuantumGate.java:68-72 | a phase matrix diag(1, z) is 2 x 2 |
| SingleGate.Matrix | Quantum/src/model/SingleQuantumGate.java:58-76 | a matrix exists exactly for the catalogue types and "Identity"; it is 2 x 2; any other type is `UnsupportedOperationException` |
| SingleGate.IdentityTypes | Quantum/src/model/SingleQuantumGate.java:60-62 | "I" and "Identity" both give the 2 x 2 identity |
| SingleGate.XIsSwap | Quantum/src/model/SingleQuantumGate.java:66-67 | X is the permutation matrix that exchanges \|0> and \|1>, and that permutation is an involution |
| SingleGate.HSquared | Quantum/src/model/SingleQuantumGate.java:63-65 | H times H is the identity |
| SingleGate.HadamardProducts | Quantum/src/model/SingleQuantumGate.java:63-65 | the products of H's entries are ±h² |
| SingleGate.HalfSums | Quantum/src/model/SingleQuantumGate.java:63-65 | the sums of H's products give the identity's entries |
| SingleGate.HOnZero | Quantum/src/model/SingleQuantumGate.java:63-65 | H sends \|0> to the equal superposition (h, h), each outcome with weight h² |
| SingleGate.TSquaredIsS | Quantum/src/model/SingleQuantumGate.java:68-72 | T times T is S |
| SingleGate.PhaseSquared | Quantum/src/model/SingleQuantumGate.java:68-72 | diag(1, t) squared is diag(1, t²) |
| SingleGate.DiagonalSquare | Quantum/src/model/SingleQuantumGate.java:70-72 | T's phase (h, h) squared is (0, 2h²), which is i when h² = 1/2 |
| SingleGate.DiagonalProducts | Quantum/src/model/SingleQuantumGate.java:68-72 | the entrywise sums in the square of a diagonal 2 x 2 matrix |
| SingleGate.PhaseOnBasis | Quantum/src/model/SingleQuantumGate.java:68-72 | a phase gate keeps \|0> and multiplies \|1> by its phase |
| ControlledGate.CnotBelow | Quantum/src/model/ControlledQuantumGate.java:64-67 | CNOT with the target on the wire below is the permutation (0 1 3 2) |
| ControlledGate.CnotAbove | Quantum/src/model/ControlledQuantumGate.java:69-72 | CNOT with the target on the wire above is the permutation (0 3 2 1) |
| ControlledGate.CnotSkip | Quantum/src/model/ControlledQuantumGate.java:74-92 | CNOT with the target two wires below is the permutation (0 1 2 3 5 4 7 6) |
| ControlledGate.C0not | Quantum/src/model/ControlledQuantumGate.java:97-100 | C0NOT is the permutation (1 0 2 3) |
| ControlledGate.Ccnot | Quantum/src/model/ControlledQuantumGate.java:106-124 | CCNOT (Toffoli) is the permutation (0 1 2 3 4 5 7 6) |
| ControlledGate.Cc00not | Quantum/src/model/ControlledQuantumGate.java:130-148 | CC00NOT is the permutation (1 0 2 3 4 5 6 7) |
| ControlledGate.Ch | Quantum/src/model/ControlledQuantumGate.java:153-160 | the CH matrix is 4 x 4 |
| ControlledGate.C0h | Quantum/src/model/ControlledQuantumGate.java:165-173 | the C0H matrix is 4 x 4 |
| ControlledGate.PermRows4 | Quantum/src/model/ControlledQuantumGate.java:64-100 | a 4 x 4 literal whose rows are basis rows is the permutation matrix of those rows |
| ControlledGate.PermRows8 | Quantum/src/model/ControlledQuantumGate.java:74-148 | an 8 x 8 literal whose rows are basis rows is the permutation matrix of those rows |
| ControlledGate.Matrix | Quantum/src/model/ControlledQuantumGate.java:60-179 | a matrix exists exactly for the supported type and wire layouts; an unsupported layout of a known type and an unknown type are both `UnsupportedOperationException`, and a wire list too short for the type is `IndexOutOfBoundsException`; the matrix spans 2 or 3 wires and is 2^span square |
| ControlledGate.CnotBelowIndex | Quantum/src/model/ControlledQuantumGate.java:64-67 | CNOT-below is an involution that flips the target bit exactly when the control is 1 |
| ControlledGate.CnotAboveIndex | Quantum/src/model/ControlledQuantumGate.java:69-72 | CNOT-above is an involution that flips the upper (target) bit exactly when the lower control is 1 |
| ControlledGate.CnotSkipIndex | Quantum/src/model/ControlledQuantumGate.java:74-92 | CNOT over three wires flips the bottom bit exactly when the top bit is 1, whatever the middle bit |
| ControlledGate.C0notIndex | Quantum/src/model/ControlledQuantumGate.java:97-100 | C0NOT flips the target exactly when the control is 0 |
| ControlledGate.CcnotIndex | Quantum/src/model/ControlledQuantumGate.java:106-124 | CCNOT flips the target exactly when both controls are 1 |
| ControlledGate.Cc00notIndex | Quantum/src/model/ControlledQuantumGate.java:130-148 | CC00NOT flips the target exactly when both controls are 0 |
| ControlledGate.PermutationGate | Quantum/src/model/ControlledQuantumGate.java:64-148 | every permutation-shaped controlled gate maps basis state k to p[k] and is its own inverse |
| ControlledGate.CnotBelowAction | Quantum/src/model/ControlledQuantumGate.java:64-67 | on basis states, CNOT-below flips the target exactly when the control is 1; applying it twice is the identity |
| ControlledGate.CnotAboveAction | Quantum/src/model/ControlledQuantumGate.java:69-72 | the same for CNOT-above, with control and target exchanged |
| ControlledGate.CnotSkipAction | Quantum/src/model/ControlledQuantumGate.java:74-92 | the same for CNOT across three wires, leaving the middle wire unchanged |
| ControlledGate.C0notAction | Quantum/src/model/ControlledQuantumGate.java:97-100 | on basis states, C0NOT flips the target exactly when the control is 0; it is its own inverse |
| ControlledGate.CcnotAction | Quantum/src/model/ControlledQuantumGate.java:106-124 | on basis states, CCNOT flips the target exactly when both controls are 1; it is its own inverse |
| ControlledGate.Cc00notAction | Quantum/src/model/ControlledQuantumGate.java:130-148 | on basis states, CC00NOT flips the target exactly when both controls are 0; it is its own inverse |
| ControlledGate.ChAction | Quantum/src/model/ControlledQuantumGate.java:153-160 | CH keeps the states with control 0 and applies H to the target when the control is 1 |
| ControlledGate.C0hAction | Quantum/src/model/ControlledQuantumGate.java:165-173 | C0H keeps the states with control 1 and applies H to the target when the control is 0 |
| ControlledGate.TypeAfterSet | Quantum/src/model/ControlledQuantumGate.java:193-200 | `setGateType(v)` as written: accepted exactly when the current type is in the catalogue, and then the type becomes v |
| ControlledGate.SetTypeAcceptsUnsupported | Quantum/src/model/ControlledQuantumGate.java:193-200 | as written, renaming a CNOT to "XYZ" is accepted, after which the gate has no matrix and can no longer be renamed |
| ControlledGate.TypeAfterSetChecked | Quantum/src/model/ControlledQuantumGate.java:36-44 | the corrected setter: accepted exactly when the new value is in the catalogue, as the constructor checks |
| ControlledGate.CheckedRenamesKeepType | Quantum/src/model/ControlledQuantumGate.java:36-44 | with the corrected setter, any sequence of renames keeps a gate's type in the catalogue |
| ControlledGate.ControlledQuantumGate.Init | Quantum/src/model/ControlledQuantumGate.java:36-44 | the fields after construction are the given type, position and wires |
| ControlledGate.ControlledQuantumGate.Create | Quantum/src/model/ControlledQuantumGate.java:36-44 | construction succeeds exactly for a type in the catalogue, and fails with `IllegalArgumentException` otherwise |
| ControlledGate.ControlledQuantumGate.SetGateType | Quantum/src/model/ControlledQuantumGate.java:193-200 | the setter's outcome and new type are `TypeAfterSet` of the old type; on failure nothing changes; position and wires never change |
| ControlledGate.ControlledQuantumGate.SetGatePosition | Quantum/src/model/ControlledQuantumGate.java:225-227 | sets the position and nothing else |
| QuantumGates.IdentityMatrix | Quantum/src/model/QuantumGate.java:43-45 | `getIdentityMatrix()` is the 2 x 2 identity |
| QuantumGates.GateMatrix | Quantum/src/model/SingleQuantumGate.java:58-76 | a gate's matrix spans 1 to 3 wires (1 for a single gate, 2 or 3 for a controlled gate) and is 2^span square; failures are unsupported-operation or index errors |
| CircuitSpec.FindGate | Quantum/src/model/QuantumCircuit.java:95-98 | `getGate(wire, position)` returns a gate of the circuit, or nothing |
| CircuitSpec.FindGateFirst | Quantum/src/model/QuantumCircuit.java:95-98 | the lookup is empty exactly when no gate has that column and names that wire; otherwise it is the first such gate in list order |
| CircuitSpec.FindGateFiltered | Quantum/src/model/QuantumCircuit.java:226 | removing gates that do not occupy a cell does not change what the cell holds |
| CircuitSpec.FindGateAppend | Quantum/src/model/QuantumCircuit.java:230 | appending a gate changes a cell only when the cell was empty and the gate occupies it |
| CircuitSpec.MaxPosition | Quantum/src/model/QuantumCircuit.java:117-119 | `getMaxWireGatePosition()` is -1 without gates; otherwise it is the position of some gate and no gate lies further right |
| CircuitSpec.Filter | Quantum/src/model/QuantumCircuit.java:226 | `removeIf` (here and at line 211) keeps exactly the gates the predicate accepts, and never adds any |
| CircuitSpec.RemoveCovered | Quantum/src/model/QuantumCircuit.java:226 | `setGate` removes exactly the gates in the new gate's column whose wires include all of its wires |
| CircuitSpec.RemoveOnWire | Quantum/src/model/QuantumCircuit.java:211 | `removeLastWire` removes exactly the gates touching the removed wire |
| CircuitSpec.RemoveFromGates | Quantum/src/model/QuantumCircuit.java:242-244 | after `removeLastWire` has run for wires m-1 down to n, a gate remains exactly when it was there and names none of the wires n .. m-1 |
| CircuitSpec.WithGate | Quantum/src/model/QuantumCircuit.java:221-236 | after `setGate(g)`, no gate other than g that g covers remains, every old gate g does not cover remains, nothing else is added, and g is present exactly when it is not "I" and at most one column past the last remaining gate |
| CircuitSpec.WithGateOtherColumns | Quantum/src/model/QuantumCircuit.java:226-231 | setting a gate changes no cell in any other column |
| CircuitSpec.WithSingleWireGate | Quantum/src/model/QuantumCircuit.java:226-231 | a single-wire gate replaces its cell's content, and leaves the cell empty when it is not kept |
| CircuitSpec.SetGateKeepsEarlierStates | Quantum/src/model/QuantumCircuit.java:221-236 | setting a gate at column p leaves the states 0 .. p unchanged, which is why the cache keeps them |
| CircuitSpec.InitialState | Quantum/src/model/QuantumCircuit.java:149-160 | the state at column 0 exists exactly when every wire's start has both amplitudes; it is a 2^n x 1 column; otherwise the result is a null dereference |
| CircuitSpec.InitialStateOfBasis | Quantum/src/model/QuantumCircuit.java:157-160 | wires starting in basis qubits give the basis column whose index reads the bits with wire 0 as the most significant |
| CircuitSpec.BasisStarts | Quantum/src/model/QuantumCircuit.java:110-112 | wire i of a basis circuit starts at `new Qubit(bits[i])` |
| CircuitSpec.Index | Quantum/src/model/QuantumCircuit.java:157-160 | the basis index of n bits is below 2^n |
| CircuitSpec.IndexBits | Quantum/src/model/QuantumCircuit.java:131-134 | bit n-1-j of the basis index is set exactly when wire j starts at \|1> |
| CircuitSpec.Cell | Quantum/src/model/QuantumCircuit.java:166-171 | an empty cell contributes the 2 x 2 identity and one wire; a gate contributes its 2^span matrix or its error |
| CircuitSpec.ColumnCells | Quantum/src/model/QuantumCircuit.java:162-173 | the cell of wire w is the first gate in that column naming w |
| CircuitSpec.KronPowers | Quantum/src/model/QuantumCircuit.java:167 | tensoring a 2^n and a 2^s square matrix gives a 2^(n+s) square matrix |
| CircuitSpec.Layer | Quantum/src/model/QuantumCircuit.java:162-173 | the scan of one column skips the wires a gate spans; its matrix is square with a power-of-two order covering at least every wire |
| CircuitSpec.ColumnLayer | Quantum/src/model/QuantumCircuit.java:161-173 | the matrix of a column covers at least all wires, or the scan fails with a gate's error |
| CircuitSpec.LayerStep | Quantum/src/model/QuantumCircuit.java:166-168 | one scan step tensors the cell's matrix on and moves past the wires it spans |
| CircuitSpec.EmptyCell | Quantum/src/model/QuantumCircuit.java:169-171 | an empty cell tensors on the identity and moves one wire |
| CircuitSpec.EmptyLayer | Quantum/src/model/QuantumCircuit.java:162-173 | a column without gates has the identity as its matrix |
| CircuitSpec.EmptyColumnKeepsState | Quantum/src/model/QuantumCircuit.java:161-174 | a column without gates leaves the state as it was |
| CircuitSpec.StateAt | Quantum/src/model/QuantumCircuit.java:148-179 | `getState(k)` is a 2^n x 1 column, or a null dereference, an unsupported gate, or a column matrix wider than the state |
| CircuitSpec.StateAtLocal | Quantum/src/model/QuantumCircuit.java:161-174 | the state after column k depends only on the cells of columns 0 .. k-1 |
| CircuitSpec.SameStates | Quantum/src/model/QuantumCircuit.java:161-174 | circuits that agree on columns 0 .. k-1 agree on every state up to k |
| CircuitSpec.SameStep | Quantum/src/model/QuantumCircuit.java:161-174 | equal states and equal columns give equal next states |
| CircuitSpec.SameColumnLayer | Quantum/src/model/QuantumCircuit.java:162-173 | columns with the same cells have the same matrix |
| CircuitSpec.UntouchedCircuitKeepsBits | Quantum/src/model/QuantumCircuit.java:148-179 | with no gate before column k, the state after column k is still the start basis state |
| CircuitSpec.UntouchedCircuitProbabilities | Quantum/src/model/QuantumCircuit.java:127-141 | with no gate before column k, wire j reads probability 1 exactly when it started at \|1>, and 0 otherwise |
| CircuitSpec.ToCache | Quantum/src/model/QuantumCircuit.java:181-187 | `stateToCache` keeps one entry per row |
| CircuitSpec.FromCache | Quantum/src/model/QuantumCircuit.java:189-195 | `stateFromCache` builds a column with one row per entry |
| CircuitSpec.CacheRoundTrip | Quantum/src/model/QuantumCircuit.java:181-195 | caching a column state and reading it back gives the same state, and the other way round |
| CircuitSpec.Weights | Quantum/src/model/QuantumCircuit.java:135 | each row's squared modulus is non-negative |
| CircuitSpec.BitWeight | Quantum/src/model/QuantumCircuit.java:132-137 | the running probability of a wire is non-negative |
| CircuitSpec.Probabilities | Quantum/src/model/QuantumCircuit.java:127-141 | one real, non-negative probability per wire |
| CircuitSpec.ModulusSqDelta | Quantum/src/model/QuantumCircuit.java:135 | the squared modulus of a 0/1 entry is that entry |
| CircuitSpec.WeightsOfBasis | Quantum/src/model/QuantumCircuit.java:135 | a basis column's weights are 1 at its index and 0 elsewhere |
| CircuitSpec.BitWeightOfIndicator | Quantum/src/model/QuantumCircuit.java:133-137 | for weights concentrated on row k, a wire's running probability is 1 exactly when bit b of k is set |
| CircuitSpec.ProbabilityOfIndicator | Quantum/src/model/QuantumCircuit.java:127-141 | for such a state, wire j's probability is 1 exactly when bit n-1-j of k is set (the list runs from the last wire's bit down) |
| CircuitSpec.ProbabilityOfBasisColumn | Quantum/src/model/QuantumCircuit.java:127-141 | the same for a basis column |
| CircuitSpec.ProbabilityOfBasisIndex | Quantum/src/model/QuantumCircuit.java:127-141 | the same for the basis column of a bit string |
| CircuitSpec.ProbabilityOfBasisBit | Quantum/src/model/QuantumCircuit.java:127-141 | in a basis state, wire j reads probability 1 exactly when its bit is 1, and 0 otherwise |
| CircuitSpec.ProbabilitiesOfBasis | Quantum/src/model/QuantumCircuit.java:127-141 | all wires at once: the probabilities read back the bits |
| Circuit.Starts | Quantum/src/model/QuantumCircuit.java:110-112 | one start qubit per wire, in wire order |
| Circuit.CoherentAfterSetGate | Quantum/src/model/QuantumCircuit.java:221-236 | evicting every cached column from the gate's column on keeps the cache coherent with the new gate list |
| Circuit.QuantumCircuit.InitialValues | Quantum/src/model/QuantumCircuit.java:110-112 | `getInitialValues()` has one entry per wire, and entry i is the start qubit of wire i |
| Circuit.QuantumCircuit.constructor | Quantum/src/model/QuantumCircuit.java:64-70 | a new circuit has no wires, no gates and an empty cache |
| Circuit.QuantumCircuit.AddWireObject | Quantum/src/model/QuantumCircuit.java:77-80 | appends the wire, keeps the gates, clears the cache |
| Circuit.QuantumCircuit.AddWire | Quantum/src/model/QuantumCircuit.java:85-88 | appends a fresh clean wire at \|0>, keeps the gates, clears the cache |
| Circuit.QuantumCircuit.RemoveLastWire | Quantum/src/model/QuantumCircuit.java:207-213 | drops the last wire if any, removes the gates touching wire index `wires.size()` after the removal, clears the cache |
| Circuit.QuantumCircuit.SetNumberOfQubits | Quantum/src/model/QuantumCircuit.java:238-245 | afterwards there are exactly n wires: the old ones truncated to n, or extended by fresh clean wires at \|0>; shrinking removes every gate naming a removed wire index (`RemoveFrom`) and growing keeps the gates; the cache is kept when the count is unchanged and cleared otherwise |
| Circuit.QuantumCircuit.GrowTo | Quantum/src/model/QuantumCircuit.java:239-241 | the `addWire` loop appends fresh clean \|0> wires up to n, keeps the gates, and clears the cache if it added any |
| Circuit.QuantumCircuit.ShrinkTo | Quantum/src/model/QuantumCircuit.java:242-244 | the `removeLastWire` loop truncates the wires to n, leaves the gates as `RemoveFrom(gates, n, old count)`, and clears the cache if it removed any |
| Circuit.QuantumCircuit.XStartWire | QuantumWeb/target/QuantumWeb-0.0.1-SNAPSHOT/model/QuantumWire.java:51-58 | flipping a wire's start inside a circuit marks it dirty and keeps `Valid()`: the cache no longer has to match, and the next `getState` (QuantumCircuit.java:150-153) drops it |
| Circuit.QuantumCircuit.MaxCachedColumn | Quantum/src/model/QuantumCircuit.java:222 | the largest cached column, or 0 for an empty cache |
| Circuit.QuantumCircuit.EvictFrom | Quantum/src/model/QuantumCircuit.java:222-225 | the cache keeps exactly the columns before the given one |
| Circuit.QuantumCircuit.SetGate | Quantum/src/model/QuantumCircuit.java:221-236 | succeeds exactly when the gate has a matrix; then the gates become `WithGate`; on failure the covered gates are already removed and the error is passed on; either way the cache keeps only earlier columns and stays coherent |
| Circuit.QuantumCircuit.Refresh | Quantum/src/model/QuantumCircuit.java:150-153 | if some wire is dirty, the cache is cleared; every wire ends clean with its start unchanged |
| Circuit.QuantumCircuit.GetState | Quantum/src/model/QuantumCircuit.java:148-179 | `getState(k)` returns exactly `StateAt` of the wires' starts and the gates; a state it returns is cached; on clean wires every cached column survives unchanged, and the only columns it adds are 0 .. k; the cache stays coherent |
| Circuit.QuantumCircuit.Compute | Quantum/src/model/QuantumCircuit.java:154-177 | the uncached branch returns exactly `StateAt` and caches it when it exists; every column already cached survives unchanged, and the only columns added are 0 .. k |
| Circuit.QuantumCircuit.Advance | Quantum/src/model/QuantumCircuit.java:161-174 | for k > 0, the column's matrix times `getState(k-1)` is exactly `StateAt(k)`; the recursive call keeps every cached column and adds only columns 0 .. k-1 |
| Circuit.QuantumCircuit.ColumnLayerOf | Quantum/src/model/QuantumCircuit.java:162-173 | the wire scan loop computes exactly `ColumnLayer` |
| Circuit.QuantumCircuit.ScanCells | Quantum/src/model/QuantumCircuit.java:162-173 | the scan loop from `{{1}}` computes exactly the layer of the column's cells |
| Circuit.QuantumCircuit.CellAt | Quantum/src/model/QuantumCircuit.java:164-171 | the loop over the gate list, which stops at the first gate in the column that names the wire, yields that gate's matrix (or its error), and the identity when no gate does; that is `Cell` of the first occupying gate (`FindGate`, whose meaning `FindGateFirst` states) |
| Circuit.QuantumCircuit.ScannedCell | Quantum/src/model/QuantumCircuit.java:164-171 | the cell the scan reads for wire n is the n-th cell of the column (the first occupying gate's matrix, or the identity) |
| Circuit.QuantumCircuit.TensorCell | Quantum/src/model/QuantumCircuit.java:167-168 | one scan step keeps the layer's meaning |
| Circuit.QuantumCircuit.StartState | Quantum/src/model/QuantumCircuit.java:157-160 | the loop over the wires computes exactly the state at column 0 |
| Circuit.QuantumCircuit.LayerErrorState | Quantum/src/model/QuantumCircuit.java:161-174 | a column whose matrix fails makes the state after it fail with the same error |
| Circuit.QuantumCircuit.NextState | Quantum/src/model/QuantumCircuit.java:174 | multiplying the column's matrix by the previous state is the next state, errors passed on |
| Circuit.QuantumCircuit.Cached | Quantum/src/model/QuantumCircuit.java:154-155 | a cache hit returns exactly the state `StateAt` would compute |
| Circuit.QuantumCircuit.Remember | Quantum/src/model/QuantumCircuit.java:176 | storing a computed state adds that column to the cache and keeps it coherent |
| Circuit.QuantumCircuit.GetQubitProbabilities | Quantum/src/model/QuantumCircuit.java:127-141 | the probabilities of `StateAt(k)`, or its error; on clean wires every cached column survives, and the only columns added are 0 .. k |
| Circuit.QuantumCircuit.ProbabilitiesOf | Quantum/src/model/QuantumCircuit.java:131-140 | the loop over wires, from the last down, computes exactly `Probabilities` |
| Circuit.QuantumCircuit.BitProbability | Quantum/src/model/QuantumCircuit.java:132-137 | the loop over rows computes exactly the running probability of one wire |
| Circuit.QuantumCircuit.StateToCache | Quantum/src/model/QuantumCircuit.java:181-187 | the loop computes exactly `ToCache` |
| Circuit.QuantumCircuit.StateFromCache | Quantum/src/model/QuantumCircuit.java:189-195 | the loop computes exactly `FromCache` |
| Scenarios.TwoBits | Quantum/src/model/QuantumCircuit.java:157-160 | two wires starting at bits a, b give basis state 2a + b |
| Scenarios.PairBits | Quantum/src/model/Qubit.java:31-40 | two values in {0, 1} are a bit string |
| Scenarios.BasisStart | Quantum/src/model/QuantumCircuit.java:148-179 | with no gate before column p, a two-wire circuit is still in its start basis state at p |
| Scenarios.TwoWireLayer | Quantum/src/model/QuantumCircuit.java:162-173 | on two wires, a two-wire gate on wire 0 is the whole column matrix |
| Scenarios.GateColumn | Quantum/src/model/QuantumCircuit.java:162-173 | the same, from the gate found in the column |
| Scenarios.StepByLayer | Quantum/src/model/QuantumCircuit.java:174 | the next state is the column's matrix times the previous state |
| Scenarios.BasisStep | Quantum/src/model/QuantumCircuit.java:161-174 | a column that maps basis state x to y moves a circuit in state x to state y |
| Scenarios.CnotBelowMatrix | Quantum/src/model/ControlledQuantumGate.java:62-67 | CNOT on wires [0, 1] has the CNOT-below matrix |
| Scenarios.CnotAboveMatrix | Quantum/src/model/ControlledQuantumGate.java:62-72 | CNOT on wires [1, 0] has the CNOT-above matrix |
| Scenarios.CnotLayer | Quantum/src/model/QuantumCircuit.java:161-173 | a column holding only CNOT [0, 1] has the CNOT-below matrix |
| Scenarios.CnotColumn | Quantum/src/model/ControlledQuantumGate.java:64-67 | that column flips the target bit exactly when the control bit is 1 |
| Scenarios.OneStep | Quantum/src/model/QuantumCircuit.java:161-174 | one column that maps basis state to basis state, after an untouched start |
| Scenarios.CnotFlipsTarget | Quantum/src/model/ControlledQuantumGate.java:64-67 | a two-wire circuit with one CNOT ends in (a, b XOR a) from start (a, b) |
| Scenarios.CnotOnOneZero | Quantum/src/model/QuantumCircuit.java:127-141 | from \|10>, after CNOT both wires read probability 1 |
| Scenarios.PresetFirst | QuantumWeb/src/controller/QuantumCircuitService.java:366-370 | on an empty circuit, `setGate` keeps the first CNOT of the SWAP preset |
| Scenarios.PresetSecond | QuantumWeb/src/controller/QuantumCircuitService.java:366-370 | the second CNOT is kept after it |
| Scenarios.PresetThird | QuantumWeb/src/controller/QuantumCircuitService.java:366-370 | the third CNOT is kept after both |
| Scenarios.SwapPresetGates | QuantumWeb/src/controller/QuantumCircuitService.java:364-370 | the three `setGate` calls of the SWAP preset leave exactly its three CNOTs in columns 0, 1, 2 |
| Scenarios.SwapLayer0 | QuantumWeb/src/controller/QuantumCircuitService.java:367 | the preset's first column has the CNOT-below matrix |
| Scenarios.SwapLayer1 | QuantumWeb/src/controller/QuantumCircuitService.java:368 | its second column has the CNOT-above matrix |
| Scenarios.SwapLayer2 | QuantumWeb/src/controller/QuantumCircuitService.java:369 | its third column has the CNOT-below matrix |
| Scenarios.SwapLayers | QuantumWeb/src/controller/QuantumCircuitService.java:366-370 | the three column matrices of the preset together |
| Scenarios.SwapPositions | QuantumWeb/src/controller/QuantumCircuitService.java:366-370 | no preset gate lies before its first column |
| Scenarios.SwapActions | QuantumWeb/src/controller/QuantumCircuitService.java:366-370 | the three columns send (a, b) to (a, b XOR a), then (b, b XOR a), then (b, a) |
| Scenarios.SwapColumns | QuantumWeb/src/controller/QuantumCircuitService.java:366-370 | the column matrices of the preset and their actions on basis states |
| Scenarios.ThreeSteps | Quantum/src/model/QuantumCircuit.java:161-174 | three columns composed move a basis state through three basis states |
| Scenarios.Exchange | Quantum/src/model/QuantumCircuit.java:148-179 | three such columns after an untouched start end in the exchanged bits |
| Scenarios.SwapExchanges | QuantumWeb/src/controller/QuantumCircuitService.java:364-370 | the SWAP preset circuit sends every two-wire basis state (a, b) to (b, a) after its three columns |

## Left out

- Floating point: `Complex` is over exact reals.
  - `modulus` is used only squared, so `Math.sqrt` and `Math.pow(…, 2)` become the squared modulus.
  - `PRECISION`, the rounding in `toString` and `hashCode` are not part of this model.
- 1/√2: `SingleGate.INV_SQRT2` is a constant whose value is not fixed, since exact reals have no square root.
  - The lemmas about H, CH, C0H and T take a parameter h with h² = 1/2.
  - T's phase (cos π/4, sin π/4) is (h, h).
- CircuitSpec.Layer: the wire count `Math.round(Math.log(len) / Math.log(2))` is taken as the exact log2 of the matrix order. For the orders 2, 4 and 8 the gates produce, the rounding gives the same value.
- Java's 32-bit `int`: `Math.pow(2, wire)`, positions and wire indices are unbounded integers. Circuits past 31 wires, where `(int) Math.pow` saturates, are not modelled.
- Circuit.QuantumCircuit.GetState: takes `k: nat`. `getState` with a negative index is not modelled (it recurses without end).
- Circuit.QuantumCircuit.SetNumberOfQubits: takes `n: nat`. A negative count is not modelled (the second loop removes wires until none are left, then never ends).
- CircuitSpec.FindGate: models `findAny()` on a sequential stream as the first match, the element a sequential stream returns.
- Gates inside a circuit are values (`QuantumGates.Gate`), not shared objects.
  - A caller that mutates a gate after `setGate`, or the lists returned by `getGates`/`getWires`, would change the circuit behind the cache's back. That aliasing is not modelled.
  - `ControlledGate.ControlledQuantumGate` models the object's own setters separately.
- `SingleQuantumGate` is modelled by its matrix only. Its constructor accepts any type and has no other behaviour.
- `clone`, `compareTo`, `equals`/`hashCode` of gates and qubits, and the getters, are not part of this model. So are `toString` of gates and `getGateTypes`, beyond the `GATE_TYPES` constants.
- Matrices.Tensor: requires its right operand to be square or its left operand to be a single column. The source indexes columns with the row count of `state2`, and every call in the circuit meets that condition. Other shapes are not modelled.
- The circuit holds web wires (`WebWire.QuantumWire`, which has `isDirty`). The desktop wire has no dirty flag and is modelled on its own.
- `Serializable`, the UI and drawing classes, and the web service are not part of this model. The one exception is the SWAP preset of `QuantumCircuitService`, taken as a scenario.
  - Scenarios.SwapExchanges states the circuit's behaviour on every basis start. It does not model the preset's own `xStart` on wire 0, which only chooses one of those starts.
- The gate classes with parameters (rotation gates and the like) are not among these files and are not part of this model.
- ControlledGate.Ch and ControlledGate.C0h: their own contracts state only the shape. Their action on basis states is stated by ChAction and C0hAction.

## Findings

| source | as written | input that shows it | evidently intended | confidence | as-written member | corrected member |
|---|---|---|---|---|---|---|
| Quantum/src/model/ControlledQuantumGate.java:193-200 | `setGateType` checks that the gate's current type is in the catalogue, not the new value | a CNOT gate renamed to "XYZ": the rename is accepted, the gate then has no matrix, and every later rename is refused | check the new value against the catalogue, as the constructor does (lines 36-44) | not executed | ControlledGate.SetTypeAcceptsUnsupported (with ControlledGate.TypeAfterSet) | ControlledGate.CheckedRenamesKeepType (with ControlledGate.TypeAfterSetChecked) |
