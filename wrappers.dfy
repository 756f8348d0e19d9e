/**
 * Shared result types. Python exceptions raised by the modelled code are
 * represented by the closed enumeration `Exc`; an operation that can raise
 * returns a `Result` (or a `Check` when it returns nothing on success).
 */
module Wrappers {

  datatype Option<T> = None | Some(value: T)

  /** The exception classes the modelled code raises (messages are dropped). */
  datatype Exc =
    | ValueError
    | IndexError
    | KeyError
    | NotImplementedError
    | RuntimeError
    | BadParameter          // click.BadParameter, raised by ColumnsParam.convert
    | InvalidEntity         // fvirt.libvirt.exceptions.InvalidEntity
    | NotConnected
    | InsufficientPrivileges
    | InvalidConfig
    | EntityRunning
    | EntityNotRunning
    | InvalidOperation
    | LibvirtError          // libvirt.libvirtError propagated unchanged
    | AttributeError        // a missing module attribute looked up at run time

  datatype Result<T> = Ok(value: T) | Err(error: Exc)
  {
    predicate IsFailure() { Err? }

    function PropagateFailure<U>(): Result<U>
      requires Err?
    {
      Err(error)
    }

    function Extract(): T
      requires Ok?
    {
      value
    }
  }

  /** Outcome of a validator that returns nothing on success. */
  datatype Check = Pass | Fail(error: Exc)
  {
    predicate IsFailure() { Fail? }

    function PropagateFailure(): Check
      requires Fail?
    {
      this
    }
  }
}
