/**
 * Package `asyncproc`: the scalar input over `Transition.Param`, the join
 * `AllOf` over publishers and the first-wins `AnyOf`.
 */
module Asyncproc {
  import opened Tokens
  import TaskNode
  import Promises

  /**
   * `asyncproc.ScalarInput`: takes one completion, a value (possibly null)
   * or an error, and then completes its parameter. The parameter part
   * (`current`, `isCompleted()`, `complete()`) belongs to `Transition.Param`,
   * modelled here as a flag plus the pin it turns on.
   */
  class ScalarInput {
    const proc: TaskNode.AsyncProc
    const pin: nat
    var current: Option<Value>
    var completed: bool
    var completionException: Option<Throwable>
    var subscription: Option<SubscriptionId>

    ghost predicate Valid()
      reads this, proc
    {
      && proc.Valid()
      && pin < proc.PinCount()
      && (completed ==> !proc.blocked[pin])
    }

    constructor (proc: TaskNode.AsyncProc)
      requires proc.Valid()
      modifies proc
      ensures Valid() && this.proc == proc && pin == old(proc.PinCount())
      ensures current.None? && !completed && completionException.None? && subscription.None?
      ensures proc.blocked == old(proc.blocked) + [true] && proc.blockedPinCount == old(proc.blockedPinCount) + 1
      ensures proc.locks == old(proc.locks) && proc.asyncParams == old(proc.asyncParams) && proc.fired == old(proc.fired)
    {
      var p := proc.NewPin(true);
      this.proc, this.pin := proc, p;
      current, completed, completionException, subscription := None, false, None, None;
    }

    function GetCompletionException(): Option<Throwable>
      reads this
    {
      completionException
    }

    method OnSubscribe(s: SubscriptionId)
      modifies this
      ensures subscription == Some(s)
      ensures current == old(current) && completed == old(completed) && completionException == old(completionException)
    {
      subscription := Some(s);
    }

    /** `Transition.Param.complete()`: marks the parameter completed and turns its pin on. */
    method Complete()
      requires Valid()
      modifies this, proc
      ensures Valid() && completed && proc.TurnedOn(pin)
      ensures current == old(current) && completionException == old(completionException) && subscription == old(subscription)
    {
      completed := true;
      var _, _ := proc.TurnOn(pin);
    }

    /**
     * `onComplete(message)`: ignored once completed; a held value is an
     * `IllegalStateException`; otherwise the message (null allowed) is
     * stored and the parameter completed.
     */
    method OnComplete(message: Option<Value>) returns (st: Status)
      requires Valid()
      modifies this, proc
      ensures Valid()
      ensures old(completed) ==> st == Normal && current == old(current) && completed && unchanged(proc)
      ensures !old(completed) && old(current).Some? ==>
                st == Raised(IllegalState) && current == old(current) && !completed && unchanged(proc)
      ensures !old(completed) && old(current).None? ==>
                st == Normal && current == message && completed && proc.TurnedOn(pin)
      ensures completionException == old(completionException) && subscription == old(subscription)
    {
      if completed {
        return Normal;
      }
      if current.Some? {
        return Raised(IllegalState);
      }
      current := message;
      Complete();
      st := Normal;
    }

    /**
     * `onError(e)`: null is an `IllegalArgumentException`; ignored once
     * completed; otherwise the error is kept, for `getCompletionException`,
     * and the parameter completed.
     */
    method OnError(e: Option<Throwable>) returns (st: Status)
      requires Valid()
      modifies this, proc
      ensures Valid()
      ensures e.None? ==> st == Raised(IllegalArgument) && completed == old(completed)
                          && completionException == old(completionException) && unchanged(proc)
      ensures e.Some? && old(completed) ==> st == Normal && completed
                                            && completionException == old(completionException) && unchanged(proc)
      ensures e.Some? && !old(completed) ==> st == Normal && completed && GetCompletionException() == e
                                             && proc.TurnedOn(pin)
      ensures current == old(current) && subscription == old(subscription)
    {
      if e.None? {
        return Raised(IllegalArgument);
      }
      if completed {
        return Normal;
      }
      completionException := e;
      Complete();
      st := Normal;
    }
  }

  /** How a source was registered with an `AllOf`: through an `Enter` gate (with its pin) or a `DaemonEnter`. */
  datatype Registration = Gate(source: nat, pin: nat) | Daemon(source: nat)

  /**
   * `asyncproc.AllOf`: a join node whose pins are exactly its `Enter`
   * gates, one per registered source, pin k for the k-th gate. When the
   * last blocked gate opens, `fire()` completes the result with null; any
   * failure, from a gate or a daemon, completes it exceptionally.
   */
  class AllOf {
    const proc: TaskNode.AsyncProc
    const result: Promises.Promise<Option<Value>>
    /** The `subscription` field of each `Enter` gate, by pin. */
    var enterSubscriptions: seq<Option<SubscriptionId>>
    /** Every `subscribe` call made on a source, in order. */
    ghost var registrations: seq<Registration>

    ghost predicate Valid()
      reads this, proc, result
    {
      && proc.Valid()
      && |enterSubscriptions| == proc.PinCount()
      && proc.locks == [] && proc.asyncParams == []
      && (proc.fired > 0 ==> result.IsDone())
      && (result.state.Value? ==> proc.fired > 0)
    }

    constructor Empty()
      ensures Valid() && fresh(proc) && fresh(result)
      ensures proc.PinCount() == 0 && proc.fired == 0 && result.state.Pending? && registrations == []
    {
      proc := new TaskNode.AsyncProc();
      result := new Promises.Promise();
      enterSubscriptions := [];
      registrations := [];
    }

    /** `AllOf(sources...)`: registers every source, in order, through `registerAsyncResult`. */
    constructor (sources: seq<nat>)
      ensures Valid() && fresh(proc) && fresh(result)
      ensures proc.PinCount() == |sources| && proc.blockedPinCount == |sources| && proc.fired == 0
      ensures result.state.Pending?
      ensures |registrations| == |sources|
      ensures forall k :: 0 <= k < |sources| ==> registrations[k] == Gate(sources[k], k)
    {
      proc := new TaskNode.AsyncProc();
      result := new Promises.Promise();
      enterSubscriptions := [];
      registrations := [];
      new;
      RegisterAsyncResults(sources);
    }

    /** `registerAsyncResult(source)`: a new blocked `Enter` gate subscribed to `source`. */
    method RegisterAsyncResult(source: nat)
      requires Valid()
      modifies this, proc
      ensures Valid()
      ensures proc.blocked == old(proc.blocked) + [true] && proc.blockedPinCount == old(proc.blockedPinCount) + 1
      ensures proc.fired == old(proc.fired)
      ensures registrations == old(registrations) + [Gate(source, old(proc.PinCount()))]
      ensures enterSubscriptions == old(enterSubscriptions) + [None]
    {
      var pin := proc.NewPin(true);
      enterSubscriptions := enterSubscriptions + [None];
      registrations := registrations + [Gate(source, pin)];
    }

    /** `registerAsyncResult(AsyncProc...)`: each source's result, in order, gets its own gate. */
    method RegisterAsyncResults(sources: seq<nat>)
      requires Valid()
      modifies this, proc
      ensures Valid()
      ensures proc.PinCount() == old(proc.PinCount()) + |sources|
      ensures proc.blockedPinCount == old(proc.blockedPinCount) + |sources| && proc.fired == old(proc.fired)
      ensures forall p :: 0 <= p < old(proc.PinCount()) ==> proc.blocked[p] == old(proc.blocked)[p]
      ensures forall p :: old(proc.PinCount()) <= p < proc.PinCount() ==> proc.blocked[p]
      ensures |registrations| == |old(registrations)| + |sources|
      ensures registrations[..|old(registrations)|] == old(registrations)
      ensures forall k :: 0 <= k < |sources| ==>
                registrations[|old(registrations)| + k] == Gate(sources[k], old(proc.PinCount()) + k)
    {
      var k := 0;
      while k < |sources|
        invariant 0 <= k <= |sources|
        invariant Valid()
        invariant proc.PinCount() == old(proc.PinCount()) + k
        invariant proc.blockedPinCount == old(proc.blockedPinCount) + k && proc.fired == old(proc.fired)
        invariant forall p :: 0 <= p < old(proc.PinCount()) ==> proc.blocked[p] == old(proc.blocked)[p]
        invariant forall p :: old(proc.PinCount()) <= p < proc.PinCount() ==> proc.blocked[p]
        invariant |registrations| == |old(registrations)| + k
        invariant registrations[..|old(registrations)|] == old(registrations)
        invariant forall j :: 0 <= j < k ==>
                    registrations[|old(registrations)| + j] == Gate(sources[j], old(proc.PinCount()) + j)
      {
        RegisterAsyncResult(sources[k]);
        k := k + 1;
      }
    }

    /** `registerAsyncDaemon(source)`: subscribes a `DaemonEnter`, which adds no gate. */
    method RegisterAsyncDaemon(source: nat)
      requires Valid()
      modifies this
      ensures Valid()
      ensures registrations == old(registrations) + [Daemon(source)]
      ensures enterSubscriptions == old(enterSubscriptions)
    {
      registrations := registrations + [Daemon(source)];
    }

    /** `fire()`: `completeResult(null)`. */
    method Fire()
      modifies result
      ensures result.state == if old(result.state).Pending? then Promises.Value(None) else old(result.state)
    {
      var _ := result.Complete(None);
    }

    /** `postGlobalFailure(ex)`: `completeResultExceptionally(ex)`. */
    method PostGlobalFailure(ex: Throwable)
      requires Valid()
      modifies result
      ensures Valid()
      ensures result.state == if old(result.state).Pending? then Promises.Failed(ex) else old(result.state)
    {
      var _ := result.CompleteExceptionally(ex);
    }

    method EnterOnSubscribe(pin: nat, s: SubscriptionId)
      requires Valid() && pin < proc.PinCount()
      modifies this
      ensures Valid()
      ensures enterSubscriptions == old(enterSubscriptions)[pin := Some(s)] && registrations == old(registrations)
    {
      enterSubscriptions := enterSubscriptions[pin := Some(s)];
    }

    /**
     * `Enter.onNext(value)`: the value is ignored and the gate opened; when
     * it was the last blocked gate the node fires, which completes the
     * result with null unless it is already done.
     */
    method EnterOnNext(pin: nat)
      requires Valid() && pin < proc.PinCount()
      modifies proc, result
      ensures Valid() && proc.TurnedOn(pin)
      ensures old(proc.blocked)[pin] && old(proc.blockedPinCount) == 1 && old(result.state).Pending? ==>
                result.state == Promises.Value(None)
      ensures !(old(proc.blocked)[pin] && old(proc.blockedPinCount) == 1) ==> result.state == old(result.state)
      ensures old(result.IsDone()) ==> result.state == old(result.state)
    {
      var _, fire := proc.TurnOn(pin);
      if fire {
        Fire();
      }
    }

    /** `Enter.onError(ex)` and `DaemonEnter.onError(ex)`: `postGlobalFailure(ex)`. */
    method EnterOnError(ex: Throwable)
      requires Valid()
      modifies result
      ensures Valid()
      ensures result.state == if old(result.state).Pending? then Promises.Failed(ex) else old(result.state)
    {
      PostGlobalFailure(ex);
    }

    /** `DaemonEnter.onNext(value)`: does nothing. */
    method DaemonOnNext()
      requires Valid()
      ensures Valid()
    {
    }
  }

  /** `asyncproc.AnyOf`: the first completion among its sources, forwarded through `onComplete` or `onError`. */
  class AnyOf {
    const result: Promises.Promise<Option<Value>>
    /** The sources this object was registered with, in constructor order. */
    ghost const registeredWith: seq<nat>

    /** `AnyOf(sources...)`: `source.whenComplete(this)` for every source. */
    constructor (sources: seq<nat>)
      ensures fresh(result) && result.state == Promises.Pending && registeredWith == sources
    {
      result := new Promises.Promise();
      registeredWith := sources;
    }

    /**
     * `accept(value, ex)`: ignored once done; a null exception completes the
     * result with the value (`onComplete(value)`), another one fails it
     * (`onError(ex)`).
     */
    method Accept(value: Option<Value>, ex: Option<Throwable>)
      modifies result
      ensures old(result.IsDone()) ==> result.state == old(result.state)
      ensures !old(result.IsDone()) && ex.None? ==> result.state == Promises.Value(value)
      ensures !old(result.IsDone()) && ex.Some? ==> result.state == Promises.Failed(ex.value)
    {
      if result.IsDone() {
        return;
      }
      if ex.None? {
        var _ := result.Complete(value);
      } else {
        var _ := result.CompleteExceptionally(ex.value);
      }
    }
  }
}
