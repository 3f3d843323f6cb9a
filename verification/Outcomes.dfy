/** How one step of the deployment programs can end, and the usual Option.

  - `Done`: the call returned.
  - `Raised`: it raised one of the exception classes that the surrounding
    `except` clause of the controller names.
  - `Escaped`: it raised any other exception, so no handler of the controller
    runs. `BootstrapError` and `PolicyError` are of this kind there.
  - `Stopped`: the process ended (crash, kill, power) inside the call.
  */
module Outcomes {

  datatype Option<+T> = None | Some(value: T) {
    predicate IsFailure() {
      None?
    }

    function PropagateFailure<U>(): Option<U>
      requires IsFailure()
    {
      None
    }

    function Extract(): T
      requires !IsFailure()
    {
      value
    }
  }

  datatype Outcome = Done | Raised | Escaped | Stopped {
    predicate IsFailure() {
      !Done?
    }

    function PropagateFailure(): Outcome
      requires IsFailure()
    {
      this
    }
  }

  /** An operation that succeeds, raises, or never returns. */
  method Attempt() returns (result: Outcome)
    ensures !result.Escaped?
  {
    result := *;
    if result.Escaped? {
      return Raised;
    }
  }
}
