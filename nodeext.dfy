/**
 * Package `node.ext`: `AllOf`, the join over `Feeder` sources. Its
 * `Enter` gates are locks of the node; a `DaemonEnter` only forwards
 * failures.
 */
module NodeExt {
  import opened Tokens
  import TaskNode
  import Promises

  /** How a source was subscribed: through an `Enter` lock (with its pin) or a `DaemonEnter`. */
  datatype Registration = Gate(source: nat, pin: nat) | Daemon(source: nat)

  /**
   * `node.ext.AllOf`: pin k is the k-th `Enter` lock. When the last
   * blocked lock opens, `fire()` completes the result with null; a
   * failure from any source, daemon or not, fails a pending result.
   */
  class AllOf {
    const proc: TaskNode.AsyncProc
    const result: Promises.Promise<Option<Value>>
    /** Every `subscribe` call made on a source, in order. */
    ghost var registrations: seq<Registration>

    ghost predicate Valid()
      reads this, proc, result
    {
      && proc.Valid()
      && proc.asyncParams == []
      && (forall k :: 0 <= k < |proc.locks| ==> proc.locks[k] == k)
      && |proc.locks| == proc.PinCount()
      && (proc.fired > 0 ==> result.IsDone())
      && (result.state.Value? ==> proc.fired > 0)
    }

    /** `AllOf(sources...)`: registers every source, in order, through `registerAsyncResult`. */
    constructor (sources: seq<nat>)
      ensures Valid() && fresh(proc) && fresh(result)
      ensures proc.PinCount() == |sources| && proc.blockedPinCount == |sources| && proc.fired == 0
      ensures result.state.Pending?
      ensures |registrations| == |sources|
      ensures forall k :: 0 <= k < |sources| ==> registrations[k] == Gate(sources[k], k)
    {
      proc := new TaskNode.AsyncProc();
      result := new Promises.Promise();
      registrations := [];
      new;
      RegisterAsyncResults(sources);
    }

    /** `registerAsyncResult(source)`: a new blocked `Enter` lock subscribed to `source`. */
    method RegisterAsyncResult(source: nat)
      requires Valid()
      modifies this, proc
      ensures Valid()
      ensures proc.blocked == old(proc.blocked) + [true] && proc.blockedPinCount == old(proc.blockedPinCount) + 1
      ensures proc.locks == old(proc.locks) + [old(proc.PinCount())] && proc.fired == old(proc.fired)
      ensures registrations == old(registrations) + [Gate(source, old(proc.PinCount()))]
    {
      var pin := proc.NewLock(true);
      registrations := registrations + [Gate(source, pin)];
    }

    /** `registerAsyncResult(AsyncAction...)`: each action's result, in order, gets its own lock. */
    method RegisterAsyncResults(sources: seq<nat>)
      requires Valid()
      modifies this, proc
      ensures Valid()
      ensures proc.PinCount() == old(proc.PinCount()) + |sources|
      ensures proc.blockedPinCount == old(proc.blockedPinCount) + |sources| && proc.fired == old(proc.fired)
      ensures forall p :: 0 <= p < old(proc.PinCount()) ==> proc.blocked[p] == old(proc.blocked)[p]
      ensures forall p :: old(proc.PinCount()) <= p < proc.PinCount() ==> proc.blocked[p]
      ensures |registrations| == |old(registrations)| + |sources|
      ensures registrations[..|old(registrations)|] == old(registrations)
      ensures forall k :: 0 <= k < |sources| ==>
                registrations[|old(registrations)| + k] == Gate(sources[k], old(proc.PinCount()) + k)
    {
      var k := 0;
      while k < |sources|
        invariant 0 <= k <= |sources|
        invariant Valid()
        invariant proc.PinCount() == old(proc.PinCount()) + k
        invariant proc.blockedPinCount == old(proc.blockedPinCount) + k && proc.fired == old(proc.fired)
        invariant forall p :: 0 <= p < old(proc.PinCount()) ==> proc.blocked[p] == old(proc.blocked)[p]
        invariant forall p :: old(proc.PinCount()) <= p < proc.PinCount() ==> proc.blocked[p]
        invariant |registrations| == |old(registrations)| + k
        invariant registrations[..|old(registrations)|] == old(registrations)
        invariant forall j :: 0 <= j < k ==>
                    registrations[|old(registrations)| + j] == Gate(sources[j], old(proc.PinCount()) + j)
      {
        RegisterAsyncResult(sources[k]);
        k := k + 1;
      }
    }

    /** `registerAsyncDaemon(source)`: subscribes a `DaemonEnter`, which adds no lock. */
    method RegisterAsyncDaemon(source: nat)
      requires Valid()
      modifies this
      ensures Valid()
      ensures registrations == old(registrations) + [Daemon(source)]
    {
      registrations := registrations + [Daemon(source)];
    }

    /** `fire()`: `completeResult(null)`. */
    method Fire()
      modifies result
      ensures result.state == if old(result.state).Pending? then Promises.Value(None) else old(result.state)
    {
      var _ := result.Complete(None);
    }

    /** `postGlobalFailure(ex)`, reached from `Enter.onError` and `DaemonEnter.onError`. */
    method PostGlobalFailure(ex: Throwable)
      requires Valid()
      modifies result
      ensures Valid()
      ensures result.state == if old(result.state).Pending? then Promises.Failed(ex) else old(result.state)
    {
      var _ := result.CompleteExceptionally(ex);
    }

    /** `Enter.onNext(value)`: opens the lock; the last blocked lock to open fires the node. */
    method EnterOnNext(pin: nat)
      requires Valid() && pin < proc.PinCount()
      modifies proc, result
      ensures Valid() && proc.TurnedOn(pin)
      ensures old(proc.blocked)[pin] && old(proc.blockedPinCount) == 1 && old(result.state).Pending? ==>
                result.state == Promises.Value(None)
      ensures !(old(proc.blocked)[pin] && old(proc.blockedPinCount) == 1) ==> result.state == old(result.state)
      ensures old(result.IsDone()) ==> result.state == old(result.state)
    {
      var _, fire := proc.TurnOn(pin);
      if fire {
        Fire();
      }
    }

    /** `DaemonEnter.onNext(value)`: does nothing. */
    method DaemonOnNext()
      requires Valid()
      ensures Valid()
    {
    }
  }
}
