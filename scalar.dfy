/**
 * Package `scalar`: the counting permit `Semafor`, the single-slot channel
 * `ScalarFeeder`, and the first-arrival combinator `AnyOf`.
 */
module Scalar {
  import opened Tokens
  import TaskNode
  import Promises

  /**
   * `Semafor`: a lock of its node holding a permit counter that may go
   * negative; the lock is blocked exactly when the counter is at most zero.
   * (Java's `long` wrap-around is not modelled.)
   */
  class Semafor {
    const proc: TaskNode.AsyncProc
    const pin: nat
    var count: int

    ghost predicate Valid()
      reads this, proc
    {
      && proc.Valid()
      && pin < proc.PinCount()
      && pin in proc.locks
      && (proc.blocked[pin] <==> count <= 0)
    }

    /** `Semafor(actor, count)`: registers a lock that starts blocked exactly when `count <= 0`. */
    constructor (proc: TaskNode.AsyncProc, count: int)
      requires proc.Valid()
      modifies proc
      ensures Valid() && this.proc == proc && this.count == count
      ensures pin == old(proc.PinCount())
      ensures proc.blocked == old(proc.blocked) + [count <= 0]
      ensures proc.blockedPinCount == old(proc.blockedPinCount) + (if count <= 0 then 1 else 0)
      ensures proc.locks == old(proc.locks) + [pin]
      ensures proc.asyncParams == old(proc.asyncParams) && proc.fired == old(proc.fired)
    {
      var p := proc.NewLock(count <= 0);
      this.proc := proc;
      this.pin := p;
      this.count := count;
    }

    /** `Semafor(actor)`: a counter of zero, so the lock starts blocked. */
    constructor Default(proc: TaskNode.AsyncProc)
      requires proc.Valid()
      modifies proc
      ensures Valid() && this.proc == proc && count == 0
      ensures pin == old(proc.PinCount())
      ensures proc.blocked == old(proc.blocked) + [true]
      ensures proc.blockedPinCount == old(proc.blockedPinCount) + 1
      ensures proc.locks == old(proc.locks) + [pin]
      ensures proc.asyncParams == old(proc.asyncParams) && proc.fired == old(proc.fired)
    {
      var p := proc.NewLock(true);
      this.proc := proc;
      this.pin := p;
      this.count := 0;
    }

    /**
     * `release(delta)`: a negative delta is an illegal argument and changes
     * nothing; otherwise the counter grows by exactly `delta`, and the lock
     * is turned on exactly when the counter crosses from `<= 0` to `> 0`.
     */
    method Release(delta: int) returns (st: Status)
      requires Valid()
      modifies this, proc
      ensures Valid()
      ensures delta < 0 ==> st == Raised(IllegalArgument) && count == old(count) && unchanged(proc)
      ensures delta >= 0 ==> st == Normal && count == old(count) + delta
      ensures delta >= 0 && old(count) <= 0 && count > 0 ==> proc.TurnedOn(pin)
      ensures delta >= 0 && !(old(count) <= 0 && count > 0) ==> unchanged(proc)
    {
      if delta < 0 {
        return Raised(IllegalArgument);
      }
      var prev := count;
      count := count + delta;
      if prev <= 0 && count > 0 {
        var _, _ := proc.TurnOn(pin);
      }
      st := Normal;
    }

    /**
     * `purge()`: the counter drops by exactly one (it may become negative);
     * the lock is turned off exactly when the counter crosses from `> 0` to `<= 0`.
     */
    method Purge()
      requires Valid()
      modifies this, proc
      ensures Valid()
      ensures count == old(count) - 1
      ensures old(count) > 0 && count <= 0 ==> proc.TurnedOff(pin)
      ensures !(old(count) > 0 && count <= 0) ==> unchanged(proc)
    {
      var prev := count;
      count := count - 1;
      if prev > 0 && count <= 0 {
        proc.TurnOff(pin);
      }
    }
  }

  /**
   * `ScalarFeeder`: a channel with a one-token slot and a round-robin list
   * of waiting subscribers. It is an unblocked-at-start lock of its node,
   * closed while the slot holds a token. A delivered token is not removed
   * from the slot.
   */
  class ScalarFeeder {
    const proc: TaskNode.AsyncProc
    const pin: nat
    var message: Option<Value>
    /** The waiting subscribers, oldest first; `null` in the source once done. */
    var subscriptions: seq<SubscriberId>
    var done: bool
    var completionToken: Option<Throwable>
    /** The calls made on subscribers, oldest first. */
    ghost var log: seq<Delivery>

    ghost predicate Valid()
      reads this, proc
    {
      && proc.Valid()
      && pin < proc.PinCount()
      && pin in proc.locks
      && (message.Some? ==> subscriptions == [])
      && (proc.blocked[pin] ==> message.Some?)
      && (done ==> subscriptions == [])
      && (completionToken.Some? ==> done)
    }

    constructor (proc: TaskNode.AsyncProc)
      requires proc.Valid()
      modifies proc
      ensures Valid() && this.proc == proc && pin == old(proc.PinCount())
      ensures message.None? && subscriptions == [] && !done && completionToken.None? && log == []
      ensures proc.blocked == old(proc.blocked) + [false] && proc.blockedPinCount == old(proc.blockedPinCount)
      ensures proc.locks == old(proc.locks) + [pin]
      ensures proc.asyncParams == old(proc.asyncParams) && proc.fired == old(proc.fired)
    {
      var p := proc.NewLock(false);
      this.proc, this.pin := proc, p;
      message, subscriptions, done, completionToken := None, [], false, None;
      log := [];
    }

    /**
     * `subscribe(s)`: a stored token is delivered (and stays in the slot)
     * and the lock turned on; with an empty slot a live feeder queues the
     * subscriber at the tail, and a done one answers `onComplete` or
     * `onError` with the stored error.
     */
    method Subscribe(s: SubscriberId)
      requires Valid()
      modifies this, proc
      ensures Valid()
      ensures message == old(message) && done == old(done) && completionToken == old(completionToken)
      ensures old(message).Some? ==>
                subscriptions == old(subscriptions)
                && log == old(log) + [Delivery(s, Next(old(message).value))]
                && proc.TurnedOn(pin)
      ensures old(message).None? && !old(done) ==>
                subscriptions == old(subscriptions) + [s] && log == old(log) && unchanged(proc)
      ensures old(message).None? && old(done) ==> subscriptions == old(subscriptions) && unchanged(proc)
      ensures old(message).None? && old(done) && old(completionToken).None? ==> log == old(log) + [Delivery(s, Complete)]
      ensures old(message).None? && old(done) && old(completionToken).Some? ==>
                log == old(log) + [Delivery(s, Error(old(completionToken)))]
    {
      if message.None? && !done {
        subscriptions := subscriptions + [s];
        return;
      }
      if message.Some? {
        log := log + [Delivery(s, Next(message.value))];
        var _, _ := proc.TurnOn(pin);
      } else if completionToken.None? {
        log := log + [Delivery(s, Complete)];
      } else {
        log := log + [Delivery(s, Error(completionToken))];
      }
    }

    /** `unSubscribe(s)`: drops the first occurrence of `s`; the list is `null` once done. */
    method UnSubscribe(s: SubscriberId) returns (st: Status)
      requires Valid()
      modifies this
      ensures Valid()
      ensures done ==> st == Raised(NullPointer)
      ensures !done ==> st == Normal
      ensures subscriptions == RemoveFirst(old(subscriptions), s)
      ensures message == old(message) && done == old(done) && completionToken == old(completionToken) && log == old(log)
    {
      if done {
        return Raised(NullPointer);
      }
      subscriptions := RemoveFirst(subscriptions, s);
      st := Normal;
    }

    /**
     * `onNext(item)`: null is a `NullPointerException` and a done feeder an
     * illegal state; a waiting head subscriber receives the token and moves
     * to the tail; otherwise the token fills the empty slot and closes the
     * lock, and a full slot is an illegal state.
     */
    method OnNext(item: Option<Value>) returns (st: Status)
      requires Valid()
      modifies this, proc
      ensures Valid()
      ensures item.None? ==> st == Raised(NullPointer)
      ensures item.Some? && old(done) ==> st == Raised(IllegalState)
      ensures item.Some? && !old(done) && old(subscriptions) == [] && old(message).Some? ==> st == Raised(IllegalState)
      ensures !st.Normal? ==> unchanged(proc) && message == old(message) && subscriptions == old(subscriptions) && log == old(log)
      ensures st.Normal? && old(subscriptions) != [] ==>
                subscriptions == old(subscriptions)[1..] + [old(subscriptions)[0]]
                && log == old(log) + [Delivery(old(subscriptions)[0], Next(item.value))]
                && message == old(message) && unchanged(proc)
      ensures st.Normal? && old(subscriptions) == [] ==>
                message == item && subscriptions == [] && log == old(log) && proc.TurnedOff(pin)
      ensures st.Normal? <==> item.Some? && !old(done) && (old(subscriptions) != [] || old(message).None?)
      ensures done == old(done) && completionToken == old(completionToken)
    {
      if item.None? {
        return Raised(NullPointer);
      }
      if done {
        return Raised(IllegalState);
      }
      if subscriptions != [] {
        var head := subscriptions[0];
        subscriptions := subscriptions[1..] + [head];
        log := log + [Delivery(head, Next(item.value))];
      } else if message.Some? {
        return Raised(IllegalState);
      } else {
        message := item;
        proc.TurnOff(pin);
      }
      st := Normal;
    }

    /**
     * `onError(e)`: one-shot; stores the error and notifies every waiting
     * subscriber once, in order. A `null` error is stored as it is, so the
     * feeder is done and a later `subscribe` answers `onComplete`.
     */
    method OnError(e: Option<Throwable>) returns (st: Status)
      requires Valid()
      modifies this
      ensures Valid()
      ensures old(done) ==> st == Raised(IllegalState) && unchanged(this)
      ensures !old(done) ==> st == Normal && done && completionToken == e && subscriptions == []
                             && log == old(log) + Broadcast(old(subscriptions), Error(e))
      ensures message == old(message)
    {
      if done {
        return Raised(IllegalState);
      }
      var subs := subscriptions;
      completionToken := e;
      done := true;
      subscriptions := [];
      var calls := Notify(subs, Error(e));
      log := log + calls;
      st := Normal;
    }

    /** `onComplete()`: one-shot; notifies every waiting subscriber once, in order. */
    method OnComplete() returns (st: Status)
      requires Valid()
      modifies this
      ensures Valid()
      ensures old(done) ==> st == Raised(IllegalState) && unchanged(this)
      ensures !old(done) ==> st == Normal && done && subscriptions == []
                             && log == old(log) + Broadcast(old(subscriptions), Complete)
      ensures message == old(message) && completionToken == old(completionToken)
    {
      if done {
        return Raised(IllegalState);
      }
      var subs := subscriptions;
      done := true;
      subscriptions := [];
      var calls := Notify(subs, Complete);
      log := log + calls;
      st := Normal;
    }

    /** `poll()` and `pollFirst()`: the stored token, left in the slot. */
    function Poll(): Option<Value>
      reads this
    {
      message
    }
  }

  /**
   * `scalar.AnyOf`: a promise completed by the first of its sources to
   * complete; itself the `whenComplete` callback of every source.
   */
  class AnyOf {
    const result: Promises.Promise<Option<Value>>
    /** The sources this object was registered with, in constructor order. */
    ghost const registeredWith: seq<nat>

    /** `AnyOf(sources...)`: `source.whenComplete(this)` for every source; what a source does then is outside the model. */
    constructor (sources: seq<nat>)
      ensures fresh(result) && result.state == Promises.Pending && registeredWith == sources
    {
      result := new Promises.Promise();
      registeredWith := sources;
    }

    /**
     * `accept(value, ex)`: ignored once the result is done; otherwise a
     * non-null exception fails the result and a null one completes it with
     * the value, even a null value.
     */
    method Accept(value: Option<Value>, ex: Option<Throwable>)
      modifies result
      ensures old(result.IsDone()) ==> result.state == old(result.state)
      ensures !old(result.IsDone()) && ex.Some? ==> result.state == Promises.Failed(ex.value)
      ensures !old(result.IsDone()) && ex.None? ==> result.state == Promises.Value(value)
    {
      if result.IsDone() {
        return;
      }
      if ex.Some? {
        var _ := result.CompleteExceptionally(ex.value);
      } else {
        var _ := result.Complete(value);
      }
    }
  }
}
