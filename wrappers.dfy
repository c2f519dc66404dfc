/** Option and Result types shared by every module, and the kinds of error
    the rule engine can raise. `Result` is failure-compatible, so both
    functions and methods propagate errors with `:-` the way the Rust code
    uses `?`. */
module Wrappers {

  datatype Option<+T> = None | Some(value: T) {
    function UnwrapOr(default: T): T {
      match this
      case Some(v) => v
      case None => default
    }

    /** `Option::or_else`: keep this value when present, else take `other`. */
    function OrElse(other: Option<T>): Option<T> {
      if Some? then this else other
    }
  }

  /** The errors of the engine, one constructor per `bail!`/`format_err!`
      site that the model keeps (messages are not modelled). */
  datatype Error =
    | NoMatchCriterion      // a rule builder has no match option
    | NoJump                // an iptables rule without `jump`
    | BridgeIdTooShort      // network id shorter than 12 characters
    | MissingNetworkOptions // the default bridge has no options map
    | InspectFailed         // the container runtime could not inspect a network

  datatype Result<+T> = Ok(value: T) | Err(error: Error) {
    predicate IsFailure() {
      Err?
    }

    function PropagateFailure<U>(): Result<U>
      requires Err?
    {
      Err(error)
    }

    function Extract(): T
      requires Ok?
    {
      value
    }
  }
}
