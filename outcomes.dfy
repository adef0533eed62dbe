/** Error kinds of the simulator and the result wrappers that carry them.
    A Java exception thrown by the engine becomes an `Err` value here. */
module Outcomes {

  /** The exceptions the engine and its gate catalogue can throw. */
  datatype Error =
    | IllegalArgument        // unknown controlled-gate type
    | UnsupportedOperation   // known type, unsupported wire geometry (or unknown single type)
    | IndexOutOfBounds       // too few wires in a gate, or a layer wider than the state
    | NullReference          // a qubit built from a value other than 0 or 1 has no amplitudes

  datatype Result<T> = Ok(value: T) | Err(error: Error)

  datatype Option<T> = None | Some(value: T)

  datatype Outcome = Pass | Fail(error: Error)
}
