/**
 * The unbound connectors of package `connector`: a one-token input of a
 * node, and a bounded buffer that hands each token to one subscriber and
 * closes its node's lock while the buffer is full.
 */
module Connector {
  import opened Tokens
  import TaskNode

  /**
   * `connector.ScalarInput`: room for one token or one error. A token turns
   * the pin on; `next` takes it and turns the pin off again unless a
   * pushback is pending.
   */
  class ScalarInput {
    const proc: TaskNode.AsyncProc
    const pin: nat
    var current: Option<Value>
    var exception: Option<Throwable>
    /** When set, the next `next()` leaves the token (and the pin) in place. */
    var pushback: bool

    ghost predicate Valid()
      reads this, proc
    {
      && proc.Valid()
      && pin < proc.PinCount()
      && (current.Some? ==> !proc.blocked[pin])
    }

    /** `ScalarInput(task)`: a new pin of the node, blocked until a token arrives. */
    constructor (proc: TaskNode.AsyncProc)
      requires proc.Valid()
      modifies proc
      ensures Valid() && this.proc == proc && pin == old(proc.PinCount())
      ensures current.None? && exception.None? && !pushback
      ensures proc.blocked == old(proc.blocked) + [true] && proc.blockedPinCount == old(proc.blockedPinCount) + 1
      ensures proc.locks == old(proc.locks) && proc.asyncParams == old(proc.asyncParams) && proc.fired == old(proc.fired)
    {
      var p := proc.NewPin(true);
      this.proc, this.pin := proc, p;
      current, exception, pushback := None, None, false;
    }

    /**
     * `current()`: the stored error is rethrown wrapped in an
     * `IllegalStateException`; an input that is not done yet reads as null.
     */
    function Current(): (r: Result<Option<Value>>)
      reads this
      ensures r.Throw? <==> exception.Some?
      ensures r.Throw? ==> r.ex == IllegalStateOf(exception.value)
      ensures !IsDone() ==> r == Return(None)
      ensures r.Return? && r.value.Some? ==> IsDone() && !HasNext()
    {
      if exception.Some? then Throw(IllegalStateOf(exception.value)) else Return(current)
    }

    predicate IsDone()
      reads this
    {
      current.Some? || exception.Some?
    }

    /** `hasNext()`: a token can still be accepted. */
    predicate HasNext()
      reads this
    {
      !IsDone()
    }

    /**
     * `onNext(message)`: null is an `IllegalArgumentException`, a second
     * token or a token after an error an `IllegalStateException`; otherwise
     * the token is stored and the pin turned on.
     */
    method OnNext(message: Option<Value>) returns (st: Status)
      requires Valid()
      modifies this, proc
      ensures Valid()
      ensures message.None? ==> st == Raised(IllegalArgument)
      ensures message.Some? && old(IsDone()) ==> st == Raised(IllegalState)
      ensures st.Normal? <==> message.Some? && !old(IsDone())
      ensures st.Normal? ==> current == message && proc.TurnedOn(pin) && Current() == Return(message)
      ensures !st.Normal? ==> current == old(current) && unchanged(proc)
      ensures exception == old(exception) && pushback == old(pushback)
    {
      if message.None? {
        return Raised(IllegalArgument);
      }
      if IsDone() {
        return Raised(IllegalState);
      }
      current := message;
      var _, _ := proc.TurnOn(pin);
      st := Normal;
    }

    /**
     * `onError(e)`: stores the error without turning the pin on; refused
     * when done. A `null` error is stored as it is and leaves the input not
     * done.
     */
    method OnError(e: Option<Throwable>) returns (st: Status)
      requires Valid()
      modifies this
      ensures Valid()
      ensures st.Normal? <==> !old(IsDone())
      ensures !st.Normal? ==> st == Raised(IllegalState)
      ensures exception == if st.Normal? then e else old(exception)
      ensures st.Normal? && e.Some? ==> IsDone() && Current() == Throw(IllegalStateOf(e.value))
      ensures st.Normal? && e.None? ==> !IsDone() && Current() == Return(None)
      ensures current == old(current) && pushback == old(pushback)
    {
      if IsDone() {
        return Raised(IllegalState);
      }
      exception := e;
      st := Normal;
    }

    /** `onComplete()`: ignored when done; otherwise turns the pin on with no token stored. */
    method OnComplete()
      requires Valid()
      modifies proc
      ensures Valid()
      ensures old(IsDone()) ==> unchanged(proc)
      ensures !old(IsDone()) ==> proc.TurnedOn(pin)
    {
      if IsDone() {
        return;
      }
      var _, _ := proc.TurnOn(pin);
    }

    /** `purge()`: drops the token; a stored error stays, and the pin is left as it is. */
    method Purge()
      requires Valid()
      modifies this
      ensures Valid()
      ensures current.None? && exception == old(exception) && pushback == old(pushback)
      ensures exception.None? ==> Current() == Return(None)
    {
      current := None;
    }

    /**
     * `next()`: a stored error is rethrown wrapped in a `RuntimeException`
     * and an empty input is an `IllegalStateException`. Otherwise the token
     * is returned; without pushback it is consumed and the pin turned off,
     * with pushback only the flag is reset.
     */
    method Next() returns (r: Result<Value>)
      requires Valid()
      modifies this, proc
      ensures Valid()
      ensures old(exception).Some? ==> r == Throw(RuntimeOf(old(exception).value))
      ensures old(exception).None? && old(current).None? ==> r == Throw(IllegalState)
      ensures r.Return? <==> old(exception).None? && old(current).Some?
      ensures r.Return? ==> r.value == old(current).value
      ensures r.Return? && old(pushback) ==> !pushback && current == old(current) && unchanged(proc)
      ensures r.Return? && !old(pushback) ==> pushback == old(pushback) && current.None? && proc.TurnedOff(pin)
      ensures r.Throw? ==> current == old(current) && pushback == old(pushback) && unchanged(proc)
      ensures exception == old(exception)
    {
      if exception.Some? {
        return Throw(RuntimeOf(exception.value));
      }
      if current.None? {
        return Throw(IllegalState);
      }
      var res := current.value;
      if pushback {
        pushback := false;
      } else {
        current := None;
        proc.TurnOff(pin);
      }
      r := Return(res);
    }
  }

  /** `StreamFeeder.defaultCapacity`. */
  const DefaultCapacity: int := 16

  /**
   * `connector.StreamFeeder`: a FIFO buffer of at most `capacity` tokens
   * (no bound when `capacity` is negative) and a round-robin list of waiting
   * subscribers. Its lock, open at start, closes when the buffer becomes full
   * and opens when `subscribe` takes a token.
   */
  class StreamFeeder {
    const proc: TaskNode.AsyncProc
    const pin: nat
    const capacity: int
    var messages: seq<Value>
    /** The waiting subscribers, oldest first; `null` in the source once done. */
    var subscriptions: seq<SubscriberId>
    var done: bool
    var completionToken: Option<Throwable>
    /** The calls made on subscribers, oldest first. */
    ghost var log: seq<Delivery>
    /** Every token ever buffered, and every token that has left the buffer, in order. */
    ghost var accepted: seq<Value>
    ghost var taken: seq<Value>

    ghost predicate Valid()
      reads this, proc
    {
      && proc.Valid()
      && pin < proc.PinCount()
      && pin in proc.locks
      && accepted == taken + messages
      && (capacity >= 0 ==> |messages| <= capacity)
      && (capacity > 0 && |messages| == capacity ==> proc.blocked[pin])
      && (messages != [] ==> subscriptions == [])
      && (done ==> subscriptions == [])
      && (completionToken.Some? ==> done)
    }

    /** `StreamFeeder(actor, capacity)`: an open lock of the node and an empty buffer. */
    constructor (proc: TaskNode.AsyncProc, capacity: int)
      requires proc.Valid()
      modifies proc
      ensures Valid() && this.proc == proc && this.capacity == capacity && pin == old(proc.PinCount())
      ensures messages == [] && subscriptions == [] && !done && completionToken.None?
      ensures log == [] && accepted == [] && taken == []
      ensures proc.blocked == old(proc.blocked) + [false] && proc.blockedPinCount == old(proc.blockedPinCount)
      ensures proc.locks == old(proc.locks) + [pin]
      ensures proc.asyncParams == old(proc.asyncParams) && proc.fired == old(proc.fired)
    {
      var p := proc.NewLock(false);
      this.proc, this.pin, this.capacity := proc, p, capacity;
      messages, subscriptions, done, completionToken := [], [], false, None;
      log, accepted, taken := [], [], [];
    }

    /** `StreamFeeder(actor)`: the default capacity, 16. */
    constructor Default(proc: TaskNode.AsyncProc)
      requires proc.Valid()
      modifies proc
      ensures Valid() && this.proc == proc && capacity == 16 && pin == old(proc.PinCount())
      ensures messages == [] && subscriptions == [] && !done && completionToken.None?
      ensures log == [] && accepted == [] && taken == []
      ensures proc.blocked == old(proc.blocked) + [false] && proc.blockedPinCount == old(proc.blockedPinCount)
      ensures proc.locks == old(proc.locks) + [pin]
      ensures proc.asyncParams == old(proc.asyncParams) && proc.fired == old(proc.fired)
    {
      var p := proc.NewLock(false);
      this.proc, this.pin, this.capacity := proc, p, DefaultCapacity;
      messages, subscriptions, done, completionToken := [], [], false, None;
      log, accepted, taken := [], [], [];
    }

    predicate IsDone()
      reads this
    {
      done
    }

    /**
     * `subscribe(s)`: the oldest buffered token, if any, goes to `s` and
     * the lock is turned on; with an empty buffer a live feeder queues `s`
     * at the tail, and a done one answers `onComplete`, or `onError` with
     * the stored error.
     */
    method Subscribe(s: SubscriberId)
      requires Valid()
      modifies this, proc
      ensures Valid()
      ensures done == old(done) && completionToken == old(completionToken) && accepted == old(accepted)
      ensures old(messages) != [] ==>
                messages == old(messages)[1..] && taken == old(taken) + [old(messages)[0]]
                && subscriptions == old(subscriptions)
                && log == old(log) + [Delivery(s, Next(old(messages)[0]))]
                && proc.TurnedOn(pin)
      ensures old(messages) == [] ==> messages == [] && taken == old(taken) && unchanged(proc)
      ensures old(messages) == [] && !old(done) ==> subscriptions == old(subscriptions) + [s] && log == old(log)
      ensures old(messages) == [] && old(done) ==> subscriptions == old(subscriptions)
      ensures old(messages) == [] && old(done) && old(completionToken).None? ==> log == old(log) + [Delivery(s, Complete)]
      ensures old(messages) == [] && old(done) && old(completionToken).Some? ==>
                log == old(log) + [Delivery(s, Error(old(completionToken)))]
    {
      var token := completionToken;
      if messages == [] && !done {
        subscriptions := subscriptions + [s];
        return;
      }
      if messages != [] {
        var message := messages[0];
        messages := messages[1..];
        taken := taken + [message];
        log := log + [Delivery(s, Next(message))];
        var _, _ := proc.TurnOn(pin);
      } else if token.None? {
        log := log + [Delivery(s, Complete)];
      } else {
        log := log + [Delivery(s, Error(token))];
      }
    }

    /** `unSubscribe(s)`: drops the first occurrence of `s`; the list is `null` once done. */
    method UnSubscribe(s: SubscriberId) returns (st: Status)
      requires Valid()
      modifies this
      ensures Valid()
      ensures done ==> st == Raised(NullPointer)
      ensures !done ==> st == Normal
      ensures subscriptions == RemoveFirst(old(subscriptions), s)
      ensures messages == old(messages) && done == old(done) && completionToken == old(completionToken)
      ensures log == old(log) && accepted == old(accepted) && taken == old(taken)
    {
      if done {
        return Raised(NullPointer);
      }
      subscriptions := RemoveFirst(subscriptions, s);
      st := Normal;
    }

    /**
     * `onNext(item)`: null is a `NullPointerException`, a done feeder an
     * illegal state. A waiting head subscriber receives the token and moves
     * to the tail; otherwise the token is appended to the buffer, which
     * closes the lock when it reaches capacity, and a full buffer is an
     * illegal state.
     */
    method OnNext(item: Option<Value>) returns (st: Status)
      requires Valid()
      modifies this, proc
      ensures Valid()
      ensures item.None? ==> st == Raised(NullPointer)
      ensures item.Some? && old(done) ==> st == Raised(IllegalState)
      ensures item.Some? && !old(done) && old(subscriptions) == [] && |old(messages)| == capacity ==> st == Raised(IllegalState)
      ensures st.Normal? <==> item.Some? && !old(done) && (old(subscriptions) != [] || |old(messages)| != capacity)
      ensures !st.Normal? ==> unchanged(proc) && messages == old(messages) && accepted == old(accepted)
                              && subscriptions == old(subscriptions) && log == old(log)
      ensures st.Normal? && old(subscriptions) != [] ==>
                subscriptions == old(subscriptions)[1..] + [old(subscriptions)[0]]
                && log == old(log) + [Delivery(old(subscriptions)[0], Next(item.value))]
                && messages == old(messages) && accepted == old(accepted) && unchanged(proc)
      ensures st.Normal? && old(subscriptions) == [] ==>
                messages == old(messages) + [item.value] && accepted == old(accepted) + [item.value]
                && subscriptions == [] && log == old(log)
                && (if |messages| == capacity then proc.TurnedOff(pin) else unchanged(proc))
      ensures done == old(done) && completionToken == old(completionToken) && taken == old(taken)
    {
      if item.None? {
        return Raised(NullPointer);
      }
      if done {
        return Raised(IllegalState);
      }
      if subscriptions != [] {
        var subscriber := subscriptions[0];
        subscriptions := subscriptions[1..] + [subscriber];
        log := log + [Delivery(subscriber, Next(item.value))];
      } else if |messages| == capacity {
        return Raised(IllegalState);
      } else {
        messages := messages + [item.value];
        accepted := accepted + [item.value];
        if |messages| == capacity {
          proc.TurnOff(pin);
        }
      }
      st := Normal;
    }

    /**
     * `onError(e)`: one-shot; stores the error and notifies every waiting
     * subscriber once, in order. A `null` error is stored as it is, so the
     * feeder is done and a later `subscribe` answers `onComplete`.
     */
    method OnError(e: Option<Throwable>) returns (st: Status)
      requires Valid()
      modifies this
      ensures Valid()
      ensures old(done) ==> st == Raised(IllegalState) && unchanged(this)
      ensures !old(done) ==> st == Normal && done && completionToken == e && subscriptions == []
                             && log == old(log) + Broadcast(old(subscriptions), Error(e))
      ensures messages == old(messages) && accepted == old(accepted) && taken == old(taken)
    {
      if done {
        return Raised(IllegalState);
      }
      var subs := subscriptions;
      completionToken := e;
      done := true;
      subscriptions := [];
      var calls := Notify(subs, Error(e));
      log := log + calls;
      st := Normal;
    }

    /** `onComplete()`: one-shot; notifies every waiting subscriber once, in order. */
    method OnComplete() returns (st: Status)
      requires Valid()
      modifies this
      ensures Valid()
      ensures old(done) ==> st == Raised(IllegalState) && unchanged(this)
      ensures !old(done) ==> st == Normal && done && subscriptions == []
                             && log == old(log) + Broadcast(old(subscriptions), Complete)
      ensures messages == old(messages) && completionToken == old(completionToken)
      ensures accepted == old(accepted) && taken == old(taken)
    {
      if done {
        return Raised(IllegalState);
      }
      var subs := subscriptions;
      done := true;
      subscriptions := [];
      var calls := Notify(subs, Complete);
      log := log + calls;
      st := Normal;
    }

    /** `poll()` and `pollFirst()`: remove and return the oldest buffered token; the lock is left as it is. */
    method Poll() returns (r: Option<Value>)
      requires Valid()
      modifies this
      ensures Valid()
      ensures old(messages) == [] ==> r.None? && messages == [] && taken == old(taken)
      ensures old(messages) != [] ==> r == Some(old(messages)[0]) && messages == old(messages)[1..]
                                      && taken == old(taken) + [old(messages)[0]]
      ensures subscriptions == old(subscriptions) && done == old(done) && completionToken == old(completionToken)
      ensures log == old(log) && accepted == old(accepted)
    {
      if messages == [] {
        return None;
      }
      r := Some(messages[0]);
      taken := taken + [messages[0]];
      messages := messages[1..];
    }
  }
}
