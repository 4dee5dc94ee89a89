/**
 * The bound scalar inputs of package `boundconnector.messagescalar`: a
 * one-shot input whose token is never consumed (`ConstInput`), and the
 * tasknode input extended with a consuming `next()` and a pushback flag
 * (`ScalarInput`).
 */
module MessageScalar {
  import opened Tokens
  import TaskNode

  /**
   * `messagescalar.ConstInput`: holds one value or one error for a node.
   * `completed` and `closeRequested` start false and no operation of the
   * class assigns them.
   */
  class ConstInput {
    const proc: TaskNode.AsyncProc
    const pin: nat
    var subscription: Option<SubscriptionId>
    var closeRequested: bool
    var cancelled: bool
    var completed: bool
    var value: Option<Value>
    var exception: Option<Throwable>
    /** The `cancel()` calls made on upstream subscriptions, oldest first. */
    ghost var upstreamCancels: seq<SubscriptionId>

    ghost predicate Valid()
      reads this, proc
    {
      proc.Valid() && pin < proc.PinCount() && !completed
    }

    /** `ConstInput(task)`: a new pin of the node, blocked until a value arrives. */
    constructor (proc: TaskNode.AsyncProc)
      requires proc.Valid()
      modifies proc
      ensures Valid() && this.proc == proc && pin == old(proc.PinCount())
      ensures subscription.None? && !closeRequested && !cancelled && !completed
      ensures value.None? && exception.None? && upstreamCancels == []
      ensures proc.blocked == old(proc.blocked) + [true] && proc.blockedPinCount == old(proc.blockedPinCount) + 1
      ensures proc.locks == old(proc.locks) && proc.asyncParams == old(proc.asyncParams) && proc.fired == old(proc.fired)
    {
      var p := proc.NewPin(true);
      this.proc, this.pin := proc, p;
      subscription, closeRequested, cancelled, completed := None, false, false, false;
      value, exception := None, None;
      upstreamCancels := [];
    }

    /** `onSubscribe(s)`: keeps the subscription, or cancels it when a close was requested. */
    method OnSubscribe(s: SubscriptionId)
      modifies this
      ensures closeRequested ==> subscription == old(subscription) && upstreamCancels == old(upstreamCancels) + [s]
      ensures !closeRequested ==> subscription == Some(s) && upstreamCancels == old(upstreamCancels)
      ensures cancelled == old(cancelled) && value == old(value) && exception == old(exception)
      ensures closeRequested == old(closeRequested) && completed == old(completed)
    {
      if closeRequested {
        upstreamCancels := upstreamCancels + [s];
      } else {
        subscription := Some(s);
      }
    }

    /** `current()`, and `next()`, which consumes nothing and leaves the pin on. */
    function Current(): Result<Option<Value>>
      reads this
    {
      if exception.Some? then Throw(IllegalStateOf(exception.value)) else Return(value)
    }

    predicate IsDone()
      reads this
    {
      completed || exception.Some?
    }

    /**
     * `complete(message)`: null is an `IllegalArgumentException` and a
     * stored error an `IllegalStateException`; otherwise the value is
     * stored (a second value replaces the first, as `completed` is never
     * set), the pin turned on, and `true` returned.
     */
    method Complete(message: Option<Value>) returns (r: Result<bool>)
      requires Valid()
      modifies this, proc
      ensures Valid()
      ensures message.None? ==> r == Throw(IllegalArgument)
      ensures message.Some? && old(exception).Some? ==> r == Throw(IllegalState)
      ensures r.Return? <==> message.Some? && old(exception).None?
      ensures r.Return? ==> r.value && value == message && proc.TurnedOn(pin) && Current() == Return(message)
      ensures r.Throw? ==> value == old(value) && unchanged(proc)
      ensures exception == old(exception) && subscription == old(subscription) && cancelled == old(cancelled)
      ensures closeRequested == old(closeRequested) && completed == old(completed)
    {
      if message.None? {
        return Throw(IllegalArgument);
      }
      if IsDone() {
        return Throw(IllegalState);
      }
      value := message;
      var _, _ := proc.TurnOn(pin);
      r := Return(true);
    }

    /**
     * `completeExceptionally(e)`: stores the error and returns `true`,
     * without turning the pin on; refused after an error. A `null` error is
     * stored as it is: `true` is returned and the input stays not done.
     */
    method CompleteExceptionally(e: Option<Throwable>) returns (r: Result<bool>)
      requires Valid()
      ensures Valid()
      modifies this
      ensures r.Return? <==> old(exception).None?
      ensures r.Throw? ==> r == Throw(IllegalState) && exception == old(exception)
      ensures r.Return? ==> r.value && exception == e
      ensures r.Return? && e.Some? ==> IsDone() && Current() == Throw(IllegalStateOf(e.value))
      ensures r.Return? && e.None? ==> !IsDone() && Current() == Return(value)
      ensures value == old(value) && subscription == old(subscription) && cancelled == old(cancelled)
      ensures closeRequested == old(closeRequested) && completed == old(completed)
    {
      if IsDone() {
        return Throw(IllegalState);
      }
      exception := e;
      r := Return(true);
    }

    /**
     * `cancel()`: without a subscription, reports `cancelled` and changes
     * nothing; otherwise drops the subscription, records the cancellation
     * and returns the upstream `cancel()` answer, `upstreamAnswer`.
     */
    method Cancel(upstreamAnswer: bool) returns (r: bool)
      modifies this
      ensures old(subscription).None? ==> r == old(cancelled) && subscription.None? && cancelled == old(cancelled)
                                          && upstreamCancels == old(upstreamCancels)
      ensures old(subscription).Some? ==> r == upstreamAnswer && subscription.None? && cancelled
                                          && upstreamCancels == old(upstreamCancels) + [old(subscription).value]
      ensures value == old(value) && exception == old(exception)
      ensures closeRequested == old(closeRequested) && completed == old(completed)
    {
      if subscription.None? {
        return cancelled;
      }
      var s := subscription.value;
      subscription := None;
      cancelled := true;
      upstreamCancels := upstreamCancels + [s];
      r := upstreamAnswer;
    }
  }

  /**
   * `messagescalar.ScalarInput`: the tasknode `ConstInput` of its node
   * (whose held token the source calls `value`) plus a pushback flag; here
   * `next()` consumes the token and turns the pin off.
   */
  class ScalarInput {
    const input: TaskNode.ConstInput
    var pushback: bool

    ghost predicate Valid()
      reads this, input, input.proc
    {
      input.Valid()
    }

    /**
     * `ScalarInput(task)` once its tasknode `ConstInput` is registered: a
     * registration refused after start is `TaskNode.AsyncProc.NewConstInput`.
     */
    constructor (input: TaskNode.ConstInput)
      requires input.Valid()
      ensures Valid() && this.input == input && !pushback
    {
      this.input := input;
      pushback := false;
    }

    /** `pushback()`: arms the flag; refused when already armed. */
    method Pushback() returns (st: Status)
      modifies this
      ensures old(pushback) ==> st == Raised(IllegalState) && pushback
      ensures !old(pushback) ==> st == Normal && pushback
    {
      if pushback {
        return Raised(IllegalState);
      }
      pushback := true;
      st := Normal;
    }

    /** `pushback(value)`: arms the flag and replaces the held token; refused when already armed. */
    method PushbackValue(v: Option<Value>) returns (st: Status)
      requires Valid()
      modifies this, input
      ensures Valid()
      ensures old(pushback) ==> st == Raised(IllegalState) && input.current == old(input.current)
      ensures !old(pushback) ==> st == Normal && input.current == v
      ensures pushback
      ensures input.exception == old(input.exception) && input.subscription == old(input.subscription)
      ensures input.cancelled == old(input.cancelled) && input.upstreamCancels == old(input.upstreamCancels)
    {
      if pushback {
        return Raised(IllegalState);
      }
      pushback := true;
      input.current := v;
      st := Normal;
    }

    /** `hasNext()`: the parent input is not done, that is, holds no error. */
    predicate HasNext()
      reads this, input
    {
      !input.IsDone()
    }

    /**
     * `next()`: a stored error is rethrown wrapped in a `RuntimeException`
     * and an empty input is an `IllegalStateException`. Otherwise the token
     * is returned; without pushback it is consumed and the pin turned off,
     * with pushback only the flag is reset.
     */
    method Next() returns (r: Result<Value>)
      requires Valid()
      modifies this, input, input.proc
      ensures Valid()
      ensures old(input.exception).Some? ==> r == Throw(RuntimeOf(old(input.exception).value))
      ensures old(input.exception).None? && old(input.current).None? ==> r == Throw(IllegalState)
      ensures r.Return? <==> old(input.exception).None? && old(input.current).Some?
      ensures r.Return? ==> r.value == old(input.current).value
      ensures r.Return? && old(pushback) ==> !pushback && input.current == old(input.current) && unchanged(input.proc)
      ensures r.Return? && !old(pushback) ==> !pushback && input.current.None? && input.proc.TurnedOff(input.pin)
      ensures r.Throw? ==> pushback == old(pushback) && input.current == old(input.current) && unchanged(input.proc)
      ensures input.exception == old(input.exception) && input.subscription == old(input.subscription)
      ensures input.cancelled == old(input.cancelled) && input.upstreamCancels == old(input.upstreamCancels)
    {
      if input.exception.Some? {
        return Throw(RuntimeOf(input.exception.value));
      }
      if input.current.None? {
        return Throw(IllegalState);
      }
      var res := input.current.value;
      if pushback {
        pushback := false;
      } else {
        input.current := None;
        input.proc.TurnOff(input.pin);
      }
      r := Return(res);
    }
  }

  /**
   * After `pushback()`, two successive `next()` calls return the same
   * token; the first keeps the token and the pin, the second consumes it.
   */
  method PushbackThenNextTwice(s: ScalarInput) returns (first: Result<Value>, second: Result<Value>)
    requires s.Valid() && !s.pushback && s.input.current.Some? && s.input.exception.None?
    modifies s, s.input, s.input.proc
    ensures first == second == Return(old(s.input.current).value)
    ensures s.input.current.None? && !s.pushback
  {
    var _ := s.Pushback();
    first := s.Next();
    second := s.Next();
  }
}
