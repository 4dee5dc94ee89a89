/**
 * Package `boundconnector.messagestream`: `StreamOutput`, a multicast
 * output port. It is a lock of its node that starts open and is closed by
 * `close()`, and it keeps a `HashSet` of `SimpleSubscriptionImpl` objects,
 * one per subscriber. A broadcast visits the set in an iteration order the
 * `HashSet` does not fix; that order is a parameter here.
 */
module MessageStream {
  import opened Tokens
  import TaskNode

  /** `SimpleSubscriptionImpl`: its subscriber (`None` once completed) and whether it was cancelled. */
  class Subscription {
    var subscriber: Option<SubscriberId>
    var closed: bool

    constructor (subscriber: Option<SubscriberId>)
      ensures this.subscriber == subscriber && !closed
    {
      this.subscriber := subscriber;
      closed := false;
    }

    /** `post(message)`: the call made on the subscriber; a dropped subscriber is a `NullPointerException`. */
    method Post(message: Value) returns (r: Result<Delivery>)
      ensures subscriber.None? <==> r.Throw?
      ensures r.Throw? ==> r.ex == NullPointer
      ensures r.Return? ==> r.value == Delivery(subscriber.value, Next(message))
    {
      if subscriber.None? {
        return Throw(NullPointer);
      }
      r := Return(Delivery(subscriber.value, Next(message)));
    }

    /**
     * `complete()`: forwards completion to the subscriber once and drops
     * it; a repeat call finds no subscriber and makes no call.
     */
    method Complete() returns (calls: seq<Delivery>)
      modifies this
      ensures subscriber.None? && closed == old(closed)
      ensures old(subscriber).None? ==> calls == []
      ensures old(subscriber).Some? ==> calls == [Delivery(old(subscriber).value, Signal.Complete)]
    {
      if subscriber.None? {
        return [];
      }
      calls := [Delivery(subscriber.value, Signal.Complete)];
      subscriber := None;
    }

    /** `request(n)`: does nothing (its empty frame says so). */
    method Request(n: int)
    {
    }
  }

  /** The subscribers of the subscriptions in `order`, position by position. */
  ghost function Subscribers(order: seq<Subscription>): seq<Option<SubscriberId>>
    reads set k | 0 <= k < |order| :: order[k]
  {
    if order == [] then [] else [order[0].subscriber] + Subscribers(order[1..])
  }

  lemma {:induction false} SubscribersLength(order: seq<Subscription>)
    ensures |Subscribers(order)| == |order|
  {
    if order != [] {
      SubscribersLength(order[1..]);
    }
  }

  /** Position `k` of `Subscribers(order)` is the subscriber of `order[k]`. */
  lemma {:induction false} SubscribersAt(order: seq<Subscription>, k: nat)
    requires k < |order|
    ensures |Subscribers(order)| == |order| && Subscribers(order)[k] == order[k].subscriber
  {
    SubscribersLength(order);
    if k > 0 {
      SubscribersAt(order[1..], k - 1);
    }
  }

  /**
   * The loop `forEach(subscription -> subscription.post(item))` over the
   * subscriptions in `order`: the calls made, up to the first subscription
   * whose subscriber was dropped, where the loop stops with that
   * subscription's `NullPointerException`.
   */
  method PostEach(order: seq<Subscription>, item: Value) returns (calls: seq<Delivery>, st: Status)
    ensures var subs := Subscribers(order);
            var n := FirstMissing(subs);
            && calls == Broadcast(Live(subs[..n]), Next(item))
            && st == if n == |order| then Normal else Raised(NullPointer)
  {
    ghost var subs := Subscribers(order);
    ghost var n := FirstMissing(subs);
    SubscribersLength(order);
    calls := [];
    var k := 0;
    while k < |order|
      invariant 0 <= k <= n
      invariant calls == Broadcast(Live(subs[..k]), Next(item))
    {
      var call := order[k].Post(item);
      SubscribersAt(order, k);
      if call.Throw? {
        if k < n {
          FirstMissingBefore(subs, k);
        }
        assert k == n;
        return calls, Raised(call.ex);
      }
      LiveStep(subs, k, Next(item));
      calls := calls + [call.value];
      k := k + 1;
    }
    assert k == n;
    st := Normal;
  }

  /**
   * The loop `forEach(SimpleSubscriptionImpl::complete)` over the
   * subscriptions in `order`: each live subscriber receives `complete`
   * once, in order, and every subscription drops its subscriber.
   */
  method CompleteEach(order: seq<Subscription>) returns (calls: seq<Delivery>)
    requires Distinct(order)
    modifies set j | 0 <= j < |order| :: order[j]
    ensures calls == Broadcast(Live(old(Subscribers(order))), Signal.Complete)
    ensures forall j :: 0 <= j < |order| ==> order[j].subscriber.None? && order[j].closed == old(order[j].closed)
  {
    ghost var subs := Subscribers(order);
    SubscribersLength(order);
    forall j | 0 <= j < |order| ensures subs[j] == order[j].subscriber {
      SubscribersAt(order, j);
    }
    calls := [];
    var k := 0;
    while k < |order|
      invariant 0 <= k <= |order|
      invariant forall j :: 0 <= j < |order| ==>
                  order[j].closed == old(order[j].closed) && order[j].subscriber == (if j < k then None else subs[j])
      invariant calls == Broadcast(Live(subs[..k]), Signal.Complete)
    {
      var s := order[k];
      if s.subscriber.Some? {
        LiveStep(subs, k, Signal.Complete);
      } else {
        LiveSkip(subs, k);
      }
      var c := s.Complete();
      calls := calls + c;
      k := k + 1;
    }
    assert subs[..k] == subs;
  }

  class StreamOutput {
    const proc: TaskNode.AsyncProc
    const pin: nat
    /** `subscriptions`; `None` once `close()` has dropped the set. */
    var subscriptions: Option<set<Subscription>>
    /** The calls made on subscribers, in order. */
    ghost var log: seq<Delivery>

    ghost function Members(): set<Subscription>
      reads this
    {
      if subscriptions.Some? then subscriptions.value else {}
    }

    ghost predicate Valid()
      reads this, proc, Members()
    {
      && proc.Valid()
      && pin < proc.PinCount()
      && pin in proc.locks
      && (proc.blocked[pin] <==> subscriptions.None?)
      && (forall s :: s in Members() ==> !s.closed)
    }

    /** `StreamOutput(actor)`: an open lock of `actor` with no subscription. */
    constructor (proc: TaskNode.AsyncProc)
      requires proc.Valid()
      modifies proc
      ensures Valid() && this.proc == proc && !Closed()
      ensures subscriptions == Some({}) && log == []
      ensures pin == old(proc.PinCount()) && proc.blocked == old(proc.blocked) + [false]
      ensures proc.blockedPinCount == old(proc.blockedPinCount) && proc.locks == old(proc.locks) + [pin]
      ensures proc.asyncParams == old(proc.asyncParams) && proc.fired == old(proc.fired)
    {
      var p := proc.NewLock(false);
      this.proc := proc;
      pin := p;
      subscriptions := Some({});
      log := [];
    }

    /** `closed()`: the lock is blocked. */
    predicate Closed()
      reads this, proc
    {
      pin < |proc.blocked| && proc.blocked[pin]
    }

    /**
     * `subscribe(subscriber)`: a fresh subscription joins the set and is
     * returned; after `close()` the set is gone (`NullPointerException`).
     */
    method Subscribe(subscriber: Option<SubscriberId>) returns (r: Result<Subscription>)
      requires Valid()
      modifies this
      ensures Valid() && log == old(log)
      ensures old(subscriptions).None? ==> r == Throw(NullPointer) && subscriptions == old(subscriptions)
      ensures old(subscriptions).Some? ==>
                && r.Return? && fresh(r.value) && r.value.subscriber == subscriber && !r.value.closed
                && subscriptions == Some(old(subscriptions).value + {r.value})
    {
      if subscriptions.None? {
        return Throw(NullPointer);
      }
      var s := new Subscription(subscriber);
      subscriptions := Some(subscriptions.value + {s});
      r := Return(s);
    }

    /** `close()`: drops the set and closes the lock. */
    method Close()
      requires Valid()
      modifies this, proc
      ensures Valid() && Closed() && subscriptions.None? && log == old(log)
      ensures proc.TurnedOff(pin)
    {
      subscriptions := None;
      proc.TurnOff(pin);
    }

    /**
     * `post(item)`: a `null` item is a `NullPointerException`; after
     * `close()` nothing is delivered. Otherwise each subscription, in
     * iteration order, passes the item to its subscriber, until one whose
     * subscriber was dropped by `complete()` throws `NullPointerException`.
     */
    method Post(item: Option<Value>, order: seq<Subscription>) returns (st: Status)
      requires Valid()
      requires subscriptions.Some? ==> Enumerates(order, subscriptions.value)
      modifies this
      ensures Valid() && subscriptions == old(subscriptions)
      ensures item.None? ==> st == Raised(NullPointer) && log == old(log)
      ensures item.Some? && subscriptions.None? ==> st == Normal && log == old(log)
      ensures item.Some? && subscriptions.Some? ==>
                var subs := Subscribers(order);
                var n := FirstMissing(subs);
                && log == old(log) + Broadcast(Live(subs[..n]), Next(item.value))
                && st == if n == |order| then Normal else Raised(NullPointer)
    {
      if item.None? {
        return Raised(NullPointer);
      }
      if Closed() {
        return Normal;
      }
      var calls;
      calls, st := PostEach(order, item.value);
      log := log + calls;
    }

    /**
     * `complete()`: after `close()` nothing happens. Otherwise every
     * subscription in the set completes, in iteration order: each live
     * subscriber receives `complete` once, and every subscription drops
     * its subscriber. The set itself is unchanged.
     */
    method Complete(order: seq<Subscription>)
      requires Valid()
      requires subscriptions.Some? ==> Enumerates(order, subscriptions.value)
      modifies this, Members()
      ensures Valid() && subscriptions == old(subscriptions)
      ensures subscriptions.None? ==> log == old(log)
      ensures subscriptions.Some? ==>
                && log == old(log) + Broadcast(Live(old(Subscribers(order))), Signal.Complete)
                && (forall s :: s in Members() ==> s.subscriber.None?)
    {
      if Closed() {
        return;
      }
      var calls := CompleteEach(order);
      log := log + calls;
    }

    /**
     * `SimpleSubscriptionImpl.cancel()`: a repeat call does nothing;
     * otherwise the subscription is marked closed and leaves the set (a
     * `NullPointerException` once `close()` has dropped the set).
     */
    method Cancel(s: Subscription) returns (st: Status)
      requires Valid()
      modifies this, s
      ensures Valid() && log == old(log) && s.subscriber == old(s.subscriber)
      ensures old(s.closed) ==> st == Normal && s.closed && subscriptions == old(subscriptions)
      ensures !old(s.closed) && old(subscriptions).None? ==>
                st == Raised(NullPointer) && s.closed && subscriptions.None?
      ensures !old(s.closed) && old(subscriptions).Some? ==>
                st == Normal && s.closed && subscriptions == Some(old(subscriptions).value - {s})
    {
      if s.closed {
        return Normal;
      }
      s.closed := true;
      if subscriptions.None? {
        return Raised(NullPointer);
      }
      subscriptions := Some(subscriptions.value - {s});
      st := Normal;
    }

    /**
     * `SimpleSubscriptionImpl.postFailure(throwable)` on one subscription:
     * the error goes to its subscriber (a `NullPointerException` if that was
     * dropped), then the subscription cancels.
     */
    method PostFailureTo(s: Subscription, e: Option<Throwable>) returns (st: Status)
      requires Valid()
      modifies this, s
      ensures Valid() && s.subscriber == old(s.subscriber)
      ensures old(s.subscriber).None? ==>
                st == Raised(NullPointer) && log == old(log) && s.closed == old(s.closed)
                && subscriptions == old(subscriptions)
      ensures old(s.subscriber).Some? ==>
                && log == old(log) + [Delivery(old(s.subscriber).value, Error(e))] && s.closed
                && subscriptions == (if old(s.closed) || old(subscriptions).None? then old(subscriptions)
                                     else Some(old(subscriptions).value - {s}))
                && st == (if !old(s.closed) && old(subscriptions).None? then Raised(NullPointer) else Normal)
    {
      if s.subscriber.None? {
        return Raised(NullPointer);
      }
      log := log + [Delivery(s.subscriber.value, Error(e))];
      st := Cancel(s);
    }
  }
}
