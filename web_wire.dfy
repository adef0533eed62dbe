/** The web application's wire: a start qubit plus a flag recording that the
    start changed since the circuit last looked. */
module WebWire {
  import opened Qubits

  class QuantumWire {
    /** The qubit that starts the wire out (`getStart`, `getInitialValue`). */
    var start: Qubit
    /** Set by `xStart`, cleared by `resetDirty` (`isDirty`). */
    var dirty: bool

    /** `new QuantumWire()`: starts at |0>, clean. */
    constructor Default()
      ensures start == NewQubit(0) && !dirty
    {
      start := NewQubit(0);
      dirty := false;
    }

    /** `new QuantumWire(initialValue)`: clean. */
    constructor (initialValue: int)
      ensures start == NewQubit(initialValue) && !dirty
    {
      start := NewQubit(initialValue);
      dirty := false;
    }

    /** `xStart()`: negates the start qubit and marks the wire dirty. */
    method XStart()
      modifies this
      ensures start == Negated(old(start)) && dirty
      ensures IsBasis(start)
    {
      start := Negated(start);
      dirty := true;
    }

    /** `resetDirty()`: clears the flag and nothing else. */
    method ResetDirty()
      modifies this
      ensures !dirty && start == old(start)
    {
      dirty := false;
    }
  }
}
