/**
 * Package `node`: `AsyncAction`, a node with a control lock (blocked until
 * `start`, blocked again while the action runs), a result promise, and
 * argument extraction over its `connector.ScalarInput` parameters.
 */
module ActionNode {
  import opened Tokens
  import TaskNode
  import Promises
  import Connector

  class AsyncAction {
    /** The gates of this node. */
    const proc: TaskNode.AsyncProc
    /** `controlLock`. */
    const controlPin: nat
    const result: Promises.Promise<Option<Value>>
    /** `asyncParams`, in registration order. */
    var params: seq<Connector.ScalarInput>
    var stopped: bool
    var argsPurged: bool

    ghost function ParamSet(): set<Connector.ScalarInput>
      reads this
    {
      set p | p in params
    }

    ghost predicate Valid()
      reads this, proc, result, ParamSet()
    {
      && proc.Valid()
      && controlPin < proc.PinCount()
      && controlPin in proc.locks
      && Distinct(params)
      && (forall k :: 0 <= k < |params| ==> params[k].proc == proc && params[k].pin != controlPin && params[k].Valid())
      && (stopped ==> result.IsDone())
    }

    /** A new node: its control lock starts blocked, so nothing fires before `start`. */
    constructor ()
      ensures Valid() && fresh(proc) && fresh(result)
      ensures proc.blocked == [true] && proc.blockedPinCount == 1 && proc.fired == 0 && controlPin == 0
      ensures !IsStarted() && !stopped && !argsPurged && params == [] && result.state.Pending?
    {
      var p := new TaskNode.AsyncProc();
      var c := p.NewLock(true);
      proc, controlPin := p, c;
      result := new Promises.Promise();
      params, stopped, argsPurged := [], false, false;
    }

    /** The registration a `BaseInput` constructor performs on its node. */
    method AddParam(input: Connector.ScalarInput)
      requires Valid() && input.Valid() && input.proc == proc && input.pin != controlPin && input !in params
      modifies this
      ensures Valid()
      ensures params == old(params) + [input] && stopped == old(stopped) && argsPurged == old(argsPurged)
    {
      params := params + [input];
    }

    /** `isStarted()`: the control lock is open. */
    predicate IsStarted()
      reads this, proc
    {
      controlPin < |proc.blocked| && !proc.blocked[controlPin]
    }

    /** `start()`: refused after `stop`; otherwise resets `argsPurged` and opens the control lock. */
    method Start() returns (st: Status)
      requires Valid()
      modifies this, proc
      ensures Valid()
      ensures old(stopped) ==> st == Raised(IllegalState) && unchanged(proc) && argsPurged == old(argsPurged)
      ensures !old(stopped) ==> st == Normal && !argsPurged && IsStarted() && proc.TurnedOn(controlPin)
      ensures stopped == old(stopped) && params == old(params)
    {
      if stopped {
        return Raised(IllegalState);
      }
      argsPurged := false;
      var _, _ := proc.TurnOn(controlPin);
      st := Normal;
    }

    /** `blockStarted()`: closes the control lock. */
    method BlockStarted()
      requires Valid()
      modifies proc
      ensures Valid() && !IsStarted() && proc.TurnedOff(controlPin)
    {
      proc.TurnOff(controlPin);
    }

    /** `stop()`: marks the node stopped and completes a pending result with null. */
    method Stop()
      requires Valid()
      modifies this, result
      ensures Valid() && stopped
      ensures result.state == if old(result.state).Pending? then Promises.Value(None) else old(result.state)
      ensures params == old(params) && argsPurged == old(argsPurged)
    {
      stopped := true;
      if !result.IsDone() {
        var _ := result.Complete(None);
      }
    }

    /** `asyncParams[k].purge()`: empties that parameter and touches no other. */
    method PurgeParam(k: nat)
      requires Valid() && k < |params|
      modifies params[k]
      ensures Valid()
      ensures params[k].current.None?
      ensures forall j :: 0 <= j < |params| ==>
                params[j].exception == old(params[j].exception) && params[j].pushback == old(params[j].pushback)
      ensures forall j :: 0 <= j < |params| && j != k ==> params[j].current == old(params[j].current)
    {
      params[k].Purge();
    }

    /**
     * `extractArguments()`: the `current()` of every parameter, in order,
     * each parameter purged right after it is read, and `argsPurged` set.
     * The first parameter holding an error aborts the loop with the
     * `IllegalStateException` of `current()`, the earlier ones already
     * purged. With no parameter list the empty array is returned and
     * `argsPurged` is left alone.
     */
    method ExtractArguments() returns (r: Result<seq<Option<Value>>>)
      requires Valid()
      modifies this, ParamSet()
      ensures Valid()
      ensures params == old(params) && stopped == old(stopped)
      ensures forall k :: 0 <= k < |params| ==>
                params[k].exception == old(params[k].exception) && params[k].pushback == old(params[k].pushback)
      ensures r.Return? <==> forall k :: 0 <= k < |params| ==> params[k].exception.None?
      ensures r.Return? ==> |r.value| == |params|
                            && (forall k :: 0 <= k < |params| ==> r.value[k] == old(params[k].current))
                            && (forall k :: 0 <= k < |params| ==> params[k].current.None?)
                            && argsPurged == (old(argsPurged) || params != [])
      ensures r.Throw? ==> exists k :: 0 <= k < |params| && params[k].exception.Some?
                                      && r.ex == IllegalStateOf(params[k].exception.value)
                                      && (forall j :: 0 <= j < k ==> params[j].exception.None? && params[j].current.None?)
                                      && (forall j :: k <= j < |params| ==> params[j].current == old(params[j].current))
                                      && argsPurged == old(argsPurged)
    {
      if params == [] {
        return Return([]);
      }
      var args: seq<Option<Value>> := [];
      var k := 0;
      while k < |params|
        invariant 0 <= k <= |params|
        invariant Valid()
        invariant params == old(params) && stopped == old(stopped) && argsPurged == old(argsPurged)
        invariant |args| == k
        invariant forall j :: 0 <= j < |params| ==>
                    && params[j].exception == old(params[j].exception) && params[j].pushback == old(params[j].pushback)
                    && (j < k ==> args[j] == old(params[j].current) && params[j].current.None? && params[j].exception.None?)
                    && (k <= j ==> params[j].current == old(params[j].current))
      {
        var arg := params[k];
        var c := arg.Current();
        if c.Throw? {
          return Throw(c.ex);
        }
        args := args + [c.value];
        PurgeParam(k);
        k := k + 1;
      }
      argsPurged := true;
      r := Return(args);
    }

    /**
     * The parameters as `extractArguments` leaves them. Errors and pushback
     * flags are kept. With no error stored, every parameter is purged and
     * `argsPurged` is set (unless there are none). Otherwise the parameters
     * before the first one holding an error are purged, that one and the
     * rest are untouched, and `argsPurged` is kept.
     */
    static twostate predicate ParamsExtracted(ps: seq<Connector.ScalarInput>, purgedBefore: bool, purgedAfter: bool)
      reads set p | p in ps
    {
      && (forall k :: 0 <= k < |ps| ==>
            ps[k].exception == old(ps[k].exception) && ps[k].pushback == old(ps[k].pushback))
      && ((forall k :: 0 <= k < |ps| ==> ps[k].exception.None?) ==>
            (forall k :: 0 <= k < |ps| ==> ps[k].current.None?) && purgedAfter == (purgedBefore || ps != []))
      && (forall k :: 0 <= k < |ps| && ps[k].exception.Some? && (forall j :: 0 <= j < k ==> ps[j].exception.None?) ==>
            && (forall j :: 0 <= j < k ==> ps[j].current.None?)
            && (forall j :: k <= j < |ps| ==> ps[j].current == old(ps[j].current))
            && purgedAfter == purgedBefore)
    }

    /**
     * `purgeAll()`: the lock purges are no-ops; the parameters are purged
     * only when `extractArguments` has not done it in this cycle, then
     * `argsPurged` is set.
     */
    method PurgeAll()
      requires Valid()
      modifies this, ParamSet()
      ensures Valid() && argsPurged
      ensures params == old(params) && stopped == old(stopped)
      ensures forall k :: 0 <= k < |params| ==>
                params[k].exception == old(params[k].exception) && params[k].pushback == old(params[k].pushback)
      ensures old(argsPurged) ==> forall k :: 0 <= k < |params| ==> params[k].current == old(params[k].current)
      ensures !old(argsPurged) ==> forall k :: 0 <= k < |params| ==> params[k].current.None?
    {
      if !argsPurged {
        var k := 0;
        while k < |params|
          invariant 0 <= k <= |params|
          invariant Valid()
          invariant params == old(params) && stopped == old(stopped) && argsPurged == old(argsPurged)
          invariant forall j :: 0 <= j < |params| ==>
                      params[j].exception == old(params[j].exception) && params[j].pushback == old(params[j].pushback)
          invariant forall j :: 0 <= j < k ==> params[j].current.None?
        {
          PurgeParam(k);
          k := k + 1;
        }
        argsPurged := true;
      }
    }

    /**
     * The part of `run()` inside its `try`: closes the control lock,
     * extracts the arguments and applies the action to them. Only the
     * control pin of the node changes; the parameters end as
     * `extractArguments` leaves them.
     */
    method Invoke(body: seq<Option<Value>> -> Status) returns (outcome: Status, ghost args: seq<Option<Value>>)
      requires Valid()
      modifies this, proc, ParamSet()
      ensures Valid() && !IsStarted() && proc.TurnedOff(controlPin)
      ensures params == old(params) && stopped == old(stopped)
      ensures ParamsExtracted(params, old(argsPurged), argsPurged)
      ensures (forall k :: 0 <= k < |params| ==> old(params[k].exception).None?) ==>
                |args| == |params| && (forall k :: 0 <= k < |params| ==> args[k] == old(params[k].current))
                && outcome == body(args)
      ensures (exists k :: 0 <= k < |params| && old(params[k].exception).Some?) ==>
                outcome.Raised? && outcome.ex.IllegalStateOf?
    {
      BlockStarted();
      var extracted := ExtractArguments();
      if extracted.Throw? {
        outcome, args := Raised(extracted.ex), [];
      } else {
        outcome := body(extracted.value);
        args := extracted.value;
      }
    }

    /** The `catch` of `run()`: fails a pending result with `ex`, then stops the node. */
    method Fail(ex: Throwable)
      requires Valid()
      modifies this, result
      ensures Valid() && stopped && params == old(params) && argsPurged == old(argsPurged)
      ensures result.state == if old(result.state).Pending? then Promises.Failed(ex) else old(result.state)
    {
      var _ := result.CompleteExceptionally(ex);
      Stop();
    }

    /**
     * `run()`: closes the control lock, extracts the arguments and applies
     * the action to them (`body`, the node's `actionCaller`). A throwable
     * from either step fails a pending result and stops the node.
     */
    method Run(body: seq<Option<Value>> -> Status) returns (outcome: Status, ghost args: seq<Option<Value>>)
      requires Valid()
      modifies this, proc, result, ParamSet()
      ensures Valid() && !IsStarted() && proc.TurnedOff(controlPin)
      ensures params == old(params) && ParamsExtracted(params, old(argsPurged), argsPurged)
      ensures outcome.Raised? ==>
                stopped && result.state == if old(result.state).Pending? then Promises.Failed(outcome.ex) else old(result.state)
      ensures outcome.Normal? ==> stopped == old(stopped) && result.state == old(result.state)
      ensures (forall k :: 0 <= k < |params| ==> old(params[k].exception).None?) ==>
                |args| == |params| && (forall k :: 0 <= k < |params| ==> args[k] == old(params[k].current))
                && outcome == body(args)
      ensures (exists k :: 0 <= k < |params| && old(params[k].exception).Some?) ==>
                outcome.Raised? && outcome.ex.IllegalStateOf?
    {
      outcome, args := Invoke(body);
      label invoked:
      if outcome.Raised? {
        Fail(outcome.ex);
      }
      assert unchanged@invoked(proc) && unchanged@invoked(ParamSet());
    }
  }
}
