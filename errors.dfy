/**
 * Error kinds raised by the crate, the fixtures and the simulator,
 * and the two failure-carrying result types used in place of C++ exceptions.
 */
module Errors {

  /** The `pixie::error::code` values the modelled code raises. */
  datatype Code =
    | Success
    | CrateAlreadyOpen
    | CrateNotReady
    | ModuleNumberInvalid
    | ModuleNotFound
    | ModuleOffline
    | ModuleAlreadyOpen
    | ModuleInitializeFailure
    | InvalidValue
    | InternalFailure
    | FileReadFailure
      /** an exception that is not a `pixie::error::error` (e.g. from `std::stoul`) */
    | StdException
      /** a failure code reported by a module operation this model does not cover */
    | DeviceFailure(id: nat)

  /** Pass or the code of the error that was thrown. */
  datatype Outcome = Pass | Fail(code: Code) {
    predicate IsFailure() { Fail? }
    function PropagateFailure(): Outcome requires Fail? { this }
  }

  /** A value or the code of the error that was thrown. */
  datatype Result<T> = Ok(value: T) | Err(code: Code) {
    predicate IsFailure() { Err? }
    function PropagateFailure<U>(): Result<U> requires Err? { Err(code) }
    function Extract(): T requires Ok? { value }
  }

  /** The outcome a module operation reports: `Success` passes, any other code fails. */
  function ToOutcome(c: Code): (o: Outcome)
    ensures o.Pass? <==> c == Success
    ensures o.Fail? ==> o.code == c
  {
    if c == Success then Pass else Fail(c)
  }
}
