/**
 * The result promise behind `AsyncAction`, `AsyncSupplier`, `AllOf` and
 * `AnyOf`: a one-shot outcome cell with `CompletableFuture`'s completion
 * rules (the first completion wins; later ones report `false` and change
 * nothing).
 */
module Promises {
  import opened Tokens

  datatype Outcome<T> = Pending | Value(value: T) | Failed(cause: Throwable)

  class Promise<T> {
    var state: Outcome<T>

    constructor ()
      ensures state == Pending
    {
      state := Pending;
    }

    predicate IsDone()
      reads this
    {
      !state.Pending?
    }

    /** Cancellation completes the promise with a `CancellationException`. */
    predicate IsCancelled()
      reads this
    {
      state == Failed(Cancellation)
    }

    /** `complete(v)`: true exactly when this call moved the promise out of `Pending`. */
    method Complete(v: T) returns (changed: bool)
      modifies this
      ensures changed <==> old(state).Pending?
      ensures state == if changed then Value(v) else old(state)
    {
      changed := state.Pending?;
      if changed {
        state := Value(v);
      }
    }

    /** `completeExceptionally(e)`: the same one-shot rule with a failure. */
    method CompleteExceptionally(e: Throwable) returns (changed: bool)
      modifies this
      ensures changed <==> old(state).Pending?
      ensures state == if changed then Failed(e) else old(state)
    {
      changed := state.Pending?;
      if changed {
        state := Failed(e);
      }
    }

    /** `cancel(mayInterrupt)`: cancels a pending promise; true when the promise ends up cancelled. */
    method Cancel() returns (cancelled: bool)
      modifies this
      ensures state == if old(state).Pending? then Failed(Cancellation) else old(state)
      ensures cancelled <==> state == Failed(Cancellation)
    {
      if state.Pending? {
        state := Failed(Cancellation);
      }
      cancelled := state == Failed(Cancellation);
    }
  }
}
