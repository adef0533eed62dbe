/** The desktop application's wire: the qubit a circuit row starts from. */
module DesktopWire {
  import opened Qubits

  class QuantumWire {
    /** The qubit that starts the wire out (`getStart`, `getInitialValue`). */
    var start: Qubit

    /** `new QuantumWire()`: starts at |0>. */
    constructor Default()
      ensures start == NewQubit(0)
    {
      start := NewQubit(0);
    }

    /** `new QuantumWire(initialValue)`. */
    constructor (initialValue: int)
      ensures start == NewQubit(initialValue)
    {
      start := NewQubit(initialValue);
    }

    /** `setStart(start)`: replaces the start qubit, whatever it is. */
    method SetStart(q: Qubit)
      modifies this
      ensures start == q
    {
      start := q;
    }

    /** `xStart()`: negates the start qubit. */
    method XStart()
      modifies this
      ensures start == Negated(old(start))
      ensures IsBasis(start)
    {
      start := Negated(start);
    }
  }
}
