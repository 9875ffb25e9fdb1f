/** The vocabulary shared by the one-shot bridge and the two task publishers:
    Combine's demand, completion and result shapes, Swift's `Error` as far as
    this core can tell errors apart, and the transition record every handler
    returns.  Each handler is modelled as one atomic step from a state to a next
    state plus the list of externally visible effects it produced, in order.
    That is an assumption of the model, not a consequence of the library's
    locking: handlers of one object take different locks or none, and some run
    `cleanup()` outside their lock, so they can overlap. */
module Combine {

  datatype Option<+T> = None | Some(value: T)

  /** `Subscribers.Demand`: `.max(n)` (so `.none` is `Max(0)`) or `.unlimited`. */
  datatype Demand = Max(n: nat) | Unlimited {
    /** `demand > 0` in Combine's ordering, where `.unlimited` exceeds every `.max(n)`. */
    predicate IsPositive() {
      Unlimited? || n > 0
    }
  }

  /** `Subscribers.Demand.none`. */
  const NoDemand: Demand := Max(0)

  /** `Subscribers.Completion`. */
  datatype Completion<+Err> = Finished | Failure(error: Err)

  /** Swift's `Result`, the value handed to a continuation. */
  datatype Result<+V, +Err> = Success(value: V) | Failed(error: Err)

  /** Swift's `Error` existential, told apart only as far as this core needs:
      the bridge's own `AwaitError.upstreamDidNotEmitValue`, or any other
      error `E` thrown by a closure or sent by an upstream. */
  datatype Error<+E> = UpstreamDidNotEmitValue | Thrown(thrown: E)

  /** What a subscriber is sent after its subscription: values, then one completion. */
  datatype Signal<+V, +Err> = Value(value: V) | Completed(completion: Completion<Err>)

  /** One atomic step: the state after the handler and the effects it produced, in order. */
  datatype Transition<+S, +F> = Transition(next: S, effects: seq<F>)
}
