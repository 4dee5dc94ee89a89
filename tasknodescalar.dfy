/**
 * Package `tasknode.messagescalar`: `AsyncSupplier`, a node that runs its
 * action once and publishes the outcome through its result promise, and
 * `AllOf`, the join that completes with the array of its sources' values.
 */
module TaskMessageScalar {
  import opened Tokens
  import TaskNode
  import Promises

  /**
   * `AsyncSupplier`: the control lock, `stopped` flag and `stop()` of its
   * `tasknode.AsyncAction` base follow `node.AsyncAction`.
   */
  class AsyncSupplier {
    const proc: TaskNode.AsyncProc
    const controlPin: nat
    const result: Promises.Promise<Option<Value>>
    var stopped: bool

    ghost predicate Valid()
      reads this, proc, result
    {
      && proc.Valid()
      && controlPin < proc.PinCount()
      && controlPin in proc.locks
      && (stopped ==> result.IsDone())
    }

    constructor ()
      ensures Valid() && fresh(proc) && fresh(result)
      ensures proc.blocked == [true] && proc.blockedPinCount == 1 && proc.fired == 0 && controlPin == 0
      ensures !stopped && result.state.Pending?
    {
      var p := new TaskNode.AsyncProc();
      var c := p.NewLock(true);
      proc, controlPin := p, c;
      result := new Promises.Promise();
      stopped := false;
    }

    /** `completeResult(res)`: true exactly when this call completed the result. */
    method CompleteResult(res: Option<Value>) returns (accepted: bool)
      requires Valid()
      modifies result
      ensures Valid()
      ensures accepted <==> old(result.state).Pending?
      ensures result.state == if accepted then Promises.Value(res) else old(result.state)
    {
      accepted := result.Complete(res);
    }

    /** `completeResultExceptionally(ex)`: true exactly when this call failed the result. */
    method CompleteResultExceptionally(ex: Throwable) returns (accepted: bool)
      requires Valid()
      modifies result
      ensures Valid()
      ensures accepted <==> old(result.state).Pending?
      ensures result.state == if accepted then Promises.Failed(ex) else old(result.state)
    {
      accepted := result.CompleteExceptionally(ex);
    }

    /** `cancel(b)`: cancels the result promise, and nothing else. */
    method Cancel() returns (cancelled: bool)
      requires Valid()
      modifies result
      ensures Valid()
      ensures result.state == if old(result.state).Pending? then Promises.Failed(Cancellation) else old(result.state)
      ensures cancelled <==> IsCancelled()
    {
      cancelled := result.Cancel();
    }

    predicate IsCancelled()
      reads this, result
    {
      result.IsCancelled()
    }

    predicate IsDone()
      reads this, result
    {
      result.IsDone()
    }

    method Stop()
      requires Valid()
      modifies this, result
      ensures Valid() && stopped
      ensures result.state == if old(result.state).Pending? then Promises.Value(None) else old(result.state)
    {
      stopped := true;
      if !result.IsDone() {
        var _ := result.Complete(None);
      }
    }

    /**
     * `run()`: closes the control lock, calls the action (`action` is what
     * `callAction()` returns or throws), completes the result with its value
     * or its throwable, and stops the node in either case.
     */
    method Run(action: Result<Option<Value>>)
      requires Valid()
      modifies this, proc, result
      ensures Valid() && stopped && proc.TurnedOff(controlPin)
      ensures old(result.state).Pending? && action.Return? ==> result.state == Promises.Value(action.value)
      ensures old(result.state).Pending? && action.Throw? ==> result.state == Promises.Failed(action.ex)
      ensures !old(result.state).Pending? ==> result.state == old(result.state)
    {
      proc.TurnOff(controlPin);
      if action.Return? {
        var _ := result.Complete(action.value);
      } else {
        var _ := result.CompleteExceptionally(action.ex);
      }
      Stop();
    }
  }

  /**
   * `tasknode.messagescalar.AllOf`: an `AsyncSupplier`, so pin 0 is the
   * control lock its base creates blocked; then one blocked `Enter` lock per
   * source, pin k + 1 for source k. A value lands in `results[k]` and opens
   * lock k + 1, and the node fires, completing the result with the
   * `results` array itself, when the last blocked lock opens, the control
   * lock included. A failure fails a pending result.
   */
  class AllOf {
    const proc: TaskNode.AsyncProc
    /** `controlLock` of the `AsyncSupplier` base. */
    const controlPin: nat
    const results: array<Option<Value>>
    const result: Promises.Promise<array<Option<Value>>>
    /** The sources, in constructor order; source k is subscribed by `Enter(k)`. */
    ghost const sources: seq<nat>
    /** Whether source k has posted a value. */
    ghost var posted: seq<bool>

    ghost predicate Valid()
      reads this, proc, result
    {
      && proc.Valid()
      && controlPin == 0
      && proc.PinCount() == results.Length + 1
      && results.Length == |posted| == |sources|
      && proc.asyncParams == []
      && (forall k :: 0 <= k < |posted| ==> (proc.blocked[k + 1] <==> !posted[k]))
      && (proc.fired > 0 ==> result.IsDone())
      && (result.state.Value? ==> proc.fired > 0 && result.state.value == results && proc.blockedPinCount == 0)
    }

    /** `isStarted()`: the control lock is open. */
    predicate IsStarted()
      reads this, proc
    {
      controlPin < |proc.blocked| && !proc.blocked[controlPin]
    }

    /**
     * `AllOf(sources...)`: the blocked control lock of the base, then a
     * results slot and a blocked `Enter(k)` lock for every source.
     */
    constructor (sources: seq<nat>)
      ensures Valid() && fresh(proc) && fresh(result) && fresh(results)
      ensures this.sources == sources && results[..] == seq(|sources|, _ => None)
      ensures proc.blocked == seq(|sources| + 1, _ => true)
      ensures proc.blockedPinCount == |sources| + 1 && proc.fired == 0 && result.state.Pending?
      ensures !IsStarted()
    {
      var p := new TaskNode.AsyncProc();
      var c := p.NewLock(true);
      var k := 0;
      while k < |sources|
        invariant 0 <= k <= |sources|
        invariant p.Valid() && p.PinCount() == k + 1 && p.blockedPinCount == k + 1 && p.fired == 0
        invariant p.asyncParams == []
        invariant forall j :: 0 <= j <= k ==> p.blocked[j]
      {
        var _ := p.NewLock(true);
        k := k + 1;
      }
      var arr := new Option<Value>[|sources|](_ => None);
      proc, controlPin, results := p, c, arr;
      result := new Promises.Promise();
      this.sources := sources;
      posted := seq(|sources|, _ => false);
    }

    /** `fire()`: `complete(results)`. */
    method Fire()
      modifies result
      ensures result.state == if old(result.state).Pending? then Promises.Value(results) else old(result.state)
    {
      var _ := result.Complete(results);
    }

    /**
     * `start()` of the base: opens the control lock; when it was the last
     * blocked lock, the node fires and completes a pending result.
     */
    method Start()
      requires Valid()
      modifies proc, result
      ensures Valid() && IsStarted() && proc.TurnedOn(controlPin)
      ensures old(proc.blocked)[controlPin] && old(proc.blockedPinCount) == 1 && old(result.state).Pending? ==>
                result.state == Promises.Value(results)
      ensures !(old(proc.blocked)[controlPin] && old(proc.blockedPinCount) == 1) ==> result.state == old(result.state)
    {
      var _, fire := proc.TurnOn(controlPin);
      if fire {
        Fire();
      }
    }

    /** `Enter(num).post(value)`: stores the value in its slot and opens lock `num + 1`; a repeat opens nothing. */
    method EnterPost(num: nat, value: Option<Value>)
      requires Valid() && num < results.Length
      modifies this, results, proc, result
      ensures Valid() && proc.TurnedOn(num + 1)
      ensures results[..] == old(results[..])[num := value]
      ensures posted == old(posted)[num := true]
      ensures old(proc.blocked)[num + 1] && old(proc.blockedPinCount) == 1 && old(result.state).Pending? ==>
                result.state == Promises.Value(results)
      ensures !(old(proc.blocked)[num + 1] && old(proc.blockedPinCount) == 1) ==> result.state == old(result.state)
    {
      results[num] := value;
      posted := posted[num := true];
      var _, fire := proc.TurnOn(num + 1);
      if fire {
        Fire();
      }
    }

    /** `Enter.postFailure(ex)`: fails the result unless it is already done; the first failure wins. */
    method EnterPostFailure(ex: Throwable)
      requires Valid()
      modifies result
      ensures Valid()
      ensures result.state == if old(result.state).Pending? then Promises.Failed(ex) else old(result.state)
    {
      if !result.IsDone() {
        var _ := result.CompleteExceptionally(ex);
      }
    }

    /** Normal completion happens only after `start()` and once every source has posted. */
    lemma CompletedOnlyWhenAllPosted()
      requires Valid() && result.state.Value?
      ensures IsStarted()
      ensures forall k :: 0 <= k < |sources| ==> posted[k]
    {
      forall k | 0 <= k < |sources| ensures posted[k] {
        assert !proc.blocked[k + 1];
      }
    }
  }
}
