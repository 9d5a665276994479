/**
 * Result types shared by the whole model, and the exceptions the driver
 * runtime raises, one constructor per exception class the modelled code uses.
 */
module Errors {

  /** The exceptions raised by the modelled code (ivi/ivi.py and the
      Tektronix MSO2000 driver), plus the Python built-ins they let escape. */
  datatype IviError =
    | SelectorRange            // SelectorRangeException
    | SelectorName             // SelectorNameException
    | SimulationState          // SimulationStateException
    | UnknownOption            // UnknownOptionException
    | IOError(reason: string)  // IOException, with the message the code passes
    | NotInitialized           // NotInitializedException
    | ValueNotSupported        // ValueNotSupportedException
    | AttributeError           // a transport lacks a method that is called on it
    | KeyError                 // a reply missing from a translation table
    | IndexError               // indexing an empty tag string
    | ValueError               // int() of a malformed number (UnicodeDecodeError is one too)
    | UnicodeDecodeError       // bytes.decode('utf-8') of invalid UTF-8

  /** A computation that yields a value or raises. */
  datatype Result<+T> = Ok(value: T) | Err(error: IviError) {
    predicate IsFailure() { Err? }
    function PropagateFailure<U>(): Result<U>
      requires Err?
    {
      Err(error)
    }
    function Extract(): T
      requires Ok?
    {
      value
    }
  }

  /** A computation that yields nothing or raises. */
  datatype Outcome = Pass | Fail(error: IviError) {
    predicate IsFailure() { Fail? }
    function PropagateFailure(): Outcome
      requires Fail?
    {
      this
    }
  }

  datatype Option<+T> = None | Some(value: T)
}
