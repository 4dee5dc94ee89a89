/**
 * Package `actor`: `Actor`, a node that runs again after each successful
 * run until it is stopped.
 */
module Actors {
  import opened Tokens
  import TaskNode
  import Promises

  /**
   * What one `runAction()` does, as far as `run()` can tell: whether it
   * called `stop()` itself, and whether it ended normally or by throwing.
   */
  datatype ActionRun = ActionRun(stopsItself: bool, ends: Status)

  class Actor {
    const proc: TaskNode.AsyncProc
    /** `controlLock`. */
    const controlPin: nat
    /** The result promise of the `asynchproc.AsyncProc` base. */
    const result: Promises.Promise<Option<Value>>
    var stopped: bool
    /** How many times the base's `purgeAll()` has run. */
    ghost var purges: nat

    ghost predicate Valid()
      reads this, proc, result
    {
      && proc.Valid()
      && controlPin < proc.PinCount()
      && controlPin in proc.locks
      && (stopped ==> result.IsDone())
    }

    /** A new actor: its control lock starts blocked. */
    constructor ()
      ensures Valid() && fresh(proc) && fresh(result)
      ensures proc.blocked == [true] && proc.blockedPinCount == 1 && proc.fired == 0 && controlPin == 0
      ensures !IsStarted() && !stopped && purges == 0 && result.state.Pending?
    {
      var p := new TaskNode.AsyncProc();
      var c := p.NewLock(true);
      proc, controlPin := p, c;
      result := new Promises.Promise();
      stopped, purges := false, 0;
    }

    /** `isStarted()`: the control lock is open. */
    predicate IsStarted()
      reads this, proc
    {
      controlPin < |proc.blocked| && !proc.blocked[controlPin]
    }

    /** `start()`: refused after `stop`; otherwise opens the control lock. */
    method Start() returns (st: Status)
      requires Valid()
      modifies proc
      ensures Valid()
      ensures stopped ==> st == Raised(IllegalState) && unchanged(proc)
      ensures !stopped ==> st == Normal && IsStarted() && proc.TurnedOn(controlPin)
    {
      if stopped {
        return Raised(IllegalState);
      }
      var _, _ := proc.TurnOn(controlPin);
      st := Normal;
    }

    /** `stop()`: marks the actor stopped and completes a pending result with null. */
    method Stop()
      requires Valid()
      modifies this, result
      ensures Valid() && stopped && purges == old(purges)
      ensures result.state == if old(result.state).Pending? then Promises.Value(None) else old(result.state)
    {
      stopped := true;
      if !result.IsDone() {
        var _ := result.Complete(None);
      }
    }

    /**
     * `run()`: closes the control lock and runs the action. After a normal
     * end, an actor that is not stopped purges its inputs and starts
     * itself again; a throwable fails a pending result and stops it.
     */
    method Run(action: ActionRun)
      requires Valid()
      modifies this, proc, result
      ensures Valid()
      ensures action.ends.Normal? && !old(stopped) && !action.stopsItself ==>
                IsStarted() && !stopped && purges == old(purges) + 1 && result.state == old(result.state)
                && proc.Reopened(controlPin)
      ensures !(action.ends.Normal? && !old(stopped) && !action.stopsItself) ==> proc.TurnedOff(controlPin)
      ensures action.ends.Normal? && (old(stopped) || action.stopsItself) ==>
                !IsStarted() && stopped == (old(stopped) || action.stopsItself) && purges == old(purges)
      ensures action.ends.Normal? && action.stopsItself ==>
                result.state == if old(result.state).Pending? then Promises.Value(None) else old(result.state)
      ensures action.ends.Normal? && !action.stopsItself ==> result.state == old(result.state)
      ensures action.ends.Raised? ==> !IsStarted() && stopped && purges == old(purges)
      ensures action.ends.Raised? ==>
                result.state == if !old(result.state).Pending? then old(result.state)
                                else if action.stopsItself then Promises.Value(None)
                                else Promises.Failed(action.ends.ex)
    {
      proc.TurnOff(controlPin);
      label closed:
      if action.stopsItself {
        Stop();
      }
      if action.ends.Raised? {
        var _ := result.CompleteExceptionally(action.ends.ex);
        Stop();
        return;
      }
      if !stopped {
        purges := purges + 1;
        var _ := Start();
        assert old(proc.blocked)[controlPin := true][controlPin := false] == old(proc.blocked)[controlPin := false];
      }
    }
  }
}
