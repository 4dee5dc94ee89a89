/**
 * Package `boundconnector.reactivestream`: `ReactiveOutput`, a multicast
 * output port with back pressure. Like `StreamOutput` it is a lock of its
 * node that starts open and is closed by `close()`, and it keeps a
 * `HashSet` of subscriptions; each `SimpleReactiveSubscriptionImpl` is
 * also a permit `Semafor` of the same node, released by `request(n)`. A
 * broadcast visits the set in an iteration order the `HashSet` does not
 * fix; that order is a parameter here.
 */
module ReactiveStream {
  import opened Tokens
  import TaskNode
  import Scalar

  /**
   * `SimpleReactiveSubscriptionImpl`: its permit counter (the `Semafor`
   * base), its subscriber (`None` once completed or cancelled) and whether
   * it was cancelled.
   */
  class Subscription {
    const permit: Scalar.Semafor
    var subscriber: Option<SubscriberId>
    var closed: bool

    constructor (permit: Scalar.Semafor, subscriber: SubscriberId)
      ensures this.permit == permit && this.subscriber == Some(subscriber) && !closed
    {
      this.permit := permit;
      this.subscriber := Some(subscriber);
      closed := false;
    }

    /** `isCompleted()`: the subscriber has been dropped. */
    predicate IsCompleted()
      reads this
    {
      subscriber.None?
    }

    /** `post(message)`: the call made on the subscriber; a completed subscription is an `IllegalStateException`. */
    method Post(message: Value) returns (r: Result<Delivery>)
      ensures IsCompleted() <==> r.Throw?
      ensures r.Throw? ==> r.ex == IllegalState
      ensures r.Return? ==> r.value == Delivery(subscriber.value, Next(message))
    {
      if subscriber.None? {
        return Throw(IllegalState);
      }
      r := Return(Delivery(subscriber.value, Next(message)));
    }

    /**
     * `complete()`: forwards completion to the subscriber once and marks
     * the subscription completed; a repeat call makes no call.
     */
    method Complete() returns (calls: seq<Delivery>)
      modifies this
      ensures IsCompleted() && closed == old(closed)
      ensures old(subscriber).None? ==> calls == []
      ensures old(subscriber).Some? ==> calls == [Delivery(old(subscriber).value, Signal.Complete)]
    {
      if subscriber.None? {
        return [];
      }
      calls := [Delivery(subscriber.value, Signal.Complete)];
      subscriber := None;
    }

    /** `purge()`: overrides the `Semafor` purge with a no-op, so the counter is left alone (its empty frame says so). */
    method Purge()
    {
    }
  }

  /** The subscribers of the subscriptions in `order`, position by position. */
  ghost function Subscribers(order: seq<Subscription>): seq<Option<SubscriberId>>
    reads set k | 0 <= k < |order| :: order[k]
  {
    if order == [] then [] else [order[0].subscriber] + Subscribers(order[1..])
  }

  lemma {:induction false} SubscribersLength(order: seq<Subscription>)
    ensures |Subscribers(order)| == |order|
  {
    if order != [] {
      SubscribersLength(order[1..]);
    }
  }

  /** Position `k` of `Subscribers(order)` is the subscriber of `order[k]`. */
  lemma {:induction false} SubscribersAt(order: seq<Subscription>, k: nat)
    requires k < |order|
    ensures |Subscribers(order)| == |order| && Subscribers(order)[k] == order[k].subscriber
  {
    SubscribersLength(order);
    if k > 0 {
      SubscribersAt(order[1..], k - 1);
    }
  }

  /**
   * The loop `forEach(subscription -> subscription.post(item))` over the
   * subscriptions in `order`: the calls made, up to the first completed
   * subscription, where the loop stops with its `IllegalStateException`.
   */
  method PostEach(order: seq<Subscription>, item: Value) returns (calls: seq<Delivery>, st: Status)
    ensures var subs := Subscribers(order);
            var n := FirstMissing(subs);
            && calls == Broadcast(Live(subs[..n]), Next(item))
            && st == if n == |order| then Normal else Raised(IllegalState)
  {
    ghost var subs := Subscribers(order);
    ghost var n := FirstMissing(subs);
    SubscribersLength(order);
    calls := [];
    var k := 0;
    while k < |order|
      invariant 0 <= k <= n
      invariant calls == Broadcast(Live(subs[..k]), Next(item))
    {
      var call := order[k].Post(item);
      SubscribersAt(order, k);
      if call.Throw? {
        if k < n {
          FirstMissingBefore(subs, k);
        }
        assert k == n;
        return calls, Raised(call.ex);
      }
      LiveStep(subs, k, Next(item));
      calls := calls + [call.value];
      k := k + 1;
    }
    assert k == n;
    st := Normal;
  }

  /**
   * The loop `forEach(SimpleReactiveSubscriptionImpl::complete)` over the
   * subscriptions in `order`: each live subscriber receives `complete`
   * once, in order, and every subscription ends completed.
   */
  method CompleteEach(order: seq<Subscription>) returns (calls: seq<Delivery>)
    requires Distinct(order)
    modifies set j | 0 <= j < |order| :: order[j]
    ensures calls == Broadcast(Live(old(Subscribers(order))), Signal.Complete)
    ensures forall j :: 0 <= j < |order| ==> order[j].subscriber.None? && order[j].closed == old(order[j].closed)
  {
    ghost var subs := Subscribers(order);
    SubscribersLength(order);
    forall j | 0 <= j < |order| ensures subs[j] == order[j].subscriber {
      SubscribersAt(order, j);
    }
    calls := [];
    var k := 0;
    while k < |order|
      invariant 0 <= k <= |order|
      invariant forall j :: 0 <= j < |order| ==>
                  order[j].closed == old(order[j].closed) && order[j].subscriber == (if j < k then None else subs[j])
      invariant calls == Broadcast(Live(subs[..k]), Signal.Complete)
    {
      var s := order[k];
      if s.subscriber.Some? {
        LiveStep(subs, k, Signal.Complete);
      } else {
        LiveSkip(subs, k);
      }
      var c := s.Complete();
      calls := calls + c;
      k := k + 1;
    }
    assert subs[..k] == subs;
  }

  class ReactiveOutput {
    const proc: TaskNode.AsyncProc
    const pin: nat
    /** `subscriptions`; `None` once `close()` has dropped the set. */
    var subscriptions: Option<set<Subscription>>
    /** The calls made on subscribers, in order. */
    ghost var log: seq<Delivery>
    /** The `subscriber.onSubscribe(subscription)` calls made by `subscribe`, in order. */
    ghost var handshakes: seq<(SubscriberId, Subscription)>

    ghost function Members(): set<Subscription>
      reads this
    {
      if subscriptions.Some? then subscriptions.value else {}
    }

    ghost function Permits(): set<Scalar.Semafor>
      reads this, Members()
    {
      set s | s in Members() :: s.permit
    }

    /**
     * The lock is blocked exactly when the set is gone; every subscription
     * in the set is open and owns a registered permit lock of the same
     * node, distinct from this output's lock and from every other permit.
     */
    ghost predicate Valid()
      reads this, proc, Members(), Permits()
    {
      && proc.Valid()
      && pin < proc.PinCount()
      && pin in proc.locks
      && (proc.blocked[pin] <==> subscriptions.None?)
      && (forall s :: s in Members() ==>
            !s.closed && s.permit.proc == proc && s.permit.pin != pin && s.permit.Valid())
      && (forall a, b :: a in Members() && b in Members() && a != b ==> a.permit.pin != b.permit.pin)
    }

    /** `Valid()` depends on the set, the node and the subscriptions, not on the logs. */
    twostate lemma ValidKept()
      requires old(Valid())
      requires subscriptions == old(subscriptions) && unchanged(proc)
      requires forall s :: s in Members() ==> s.closed == old(s.closed) && s.permit.count == old(s.permit.count)
      ensures Valid()
    {
    }

    /** Removing a subscription from the set and unregistering its permit lock keeps `Valid()`. */
    twostate lemma ValidAfterRemoval(s: Subscription)
      requires old(Valid()) && old(s in Members())
      requires subscriptions == Some(old(subscriptions).value - {s})
      requires proc.Valid()
      requires proc.blocked == old(proc.blocked)[s.permit.pin := false]
      requires proc.locks == RemoveFirst(old(proc.locks), s.permit.pin)
      requires forall a :: a in Members() ==> a.closed == old(a.closed) && a.permit.count == old(a.permit.count)
      ensures Valid()
    {
      var p := s.permit.pin;
      RemoveFirstKeeps(old(proc.locks), p, pin);
      forall a | a in Members()
        ensures a.permit.pin in proc.locks
      {
        RemoveFirstKeeps(old(proc.locks), p, a.permit.pin);
      }
    }

    /** Registering a fresh lock on the node, with the set unchanged, keeps `Valid()`. */
    twostate lemma ValidAfterNewLock()
      requires old(Valid())
      requires subscriptions == old(subscriptions) && proc.Valid()
      requires proc.blocked == old(proc.blocked) + [true] && proc.locks == old(proc.locks) + [old(proc.PinCount())]
      requires forall a :: a in Members() ==> a.closed == old(a.closed) && a.permit.count == old(a.permit.count)
      ensures Valid()
    {
      forall a | a in Members()
        ensures a.permit.Valid()
      {
        assert a.permit.pin < old(proc.PinCount());
        assert proc.blocked[a.permit.pin] == old(proc.blocked)[a.permit.pin];
      }
    }

    /** Adding an open subscription whose permit is a lock of its own keeps `Valid()`. */
    twostate lemma ValidAfterAdd(s: Subscription)
      requires old(Valid()) && s !in old(Members())
      requires old(subscriptions).Some? && subscriptions == Some(old(subscriptions).value + {s})
      requires unchanged(proc)
      requires !s.closed && s.permit.proc == proc && s.permit.pin != pin && s.permit.Valid()
      requires forall a :: a in old(Members()) ==> a.permit.pin != s.permit.pin
      requires forall a :: a in old(Members()) ==>
                 a.closed == old(a.closed) && a.permit.count == old(a.permit.count)
      ensures Valid()
    {
    }

    /** `ReactiveOutput(actor)`: an open lock of `actor` with no subscription. */
    constructor (proc: TaskNode.AsyncProc)
      requires proc.Valid()
      modifies proc
      ensures Valid() && this.proc == proc && !Closed()
      ensures subscriptions == Some({}) && log == [] && handshakes == []
      ensures pin == old(proc.PinCount()) && proc.blocked == old(proc.blocked) + [false]
      ensures proc.blockedPinCount == old(proc.blockedPinCount) && proc.locks == old(proc.locks) + [pin]
      ensures proc.asyncParams == old(proc.asyncParams) && proc.fired == old(proc.fired)
    {
      var p := proc.NewLock(false);
      this.proc := proc;
      pin := p;
      subscriptions := Some({});
      log, handshakes := [], [];
    }

    /** `closed()`: the lock is blocked. */
    predicate Closed()
      reads this, proc
    {
      pin < |proc.blocked| && proc.blocked[pin]
    }

    /**
     * `subscribe(subscriber)`: the new subscription first registers its
     * permit lock (blocked, counter zero); a `null` subscriber then fails
     * with `NullPointerException`, and so does a closed output, whose set
     * is gone. Otherwise the subscription joins the set, is handed to
     * `subscriber.onSubscribe`, and is returned.
     */
    method Subscribe(subscriber: Option<SubscriberId>) returns (r: Result<Subscription>)
      requires Valid()
      modifies this, proc
      ensures Valid() && log == old(log)
      ensures proc.blocked == old(proc.blocked) + [true] && proc.blockedPinCount == old(proc.blockedPinCount) + 1
      ensures proc.locks == old(proc.locks) + [old(proc.PinCount())]
      ensures proc.asyncParams == old(proc.asyncParams) && proc.fired == old(proc.fired)
      ensures subscriber.None? || old(subscriptions).None? ==>
                r == Throw(NullPointer) && subscriptions == old(subscriptions) && handshakes == old(handshakes)
      ensures subscriber.Some? && old(subscriptions).Some? ==>
                && r.Return? && fresh(r.value) && fresh(r.value.permit)
                && r.value.subscriber == subscriber && r.value.permit.count == 0
                && r.value.permit.pin == old(proc.PinCount())
                && subscriptions == Some(old(subscriptions).value + {r.value})
                && handshakes == old(handshakes) + [(subscriber.value, r.value)]
    {
      var permit := new Scalar.Semafor.Default(proc);
      ValidAfterNewLock();
      if subscriber.None? {
        return Throw(NullPointer);
      }
      var s := new Subscription(permit, subscriber.value);
      if subscriptions.None? {
        return Throw(NullPointer);
      }
      label added:
      subscriptions := Some(subscriptions.value + {s});
      handshakes := handshakes + [(subscriber.value, s)];
      ValidAfterAdd@added(s);
      r := Return(s);
    }

    /** `close()`: drops the set and closes the lock. */
    method Close()
      requires Valid()
      modifies this, proc
      ensures Valid() && Closed() && subscriptions.None? && log == old(log)
      ensures proc.TurnedOff(pin)
    {
      subscriptions := None;
      proc.TurnOff(pin);
    }

    /**
     * `post(item)`: after `close()` nothing is delivered. Otherwise each
     * subscription, in iteration order, passes the item to its
     * subscriber, until a completed one throws `IllegalStateException`.
     * The permit counters are left alone.
     */
    method Post(item: Value, order: seq<Subscription>) returns (st: Status)
      requires Valid()
      requires subscriptions.Some? ==> Enumerates(order, subscriptions.value)
      modifies this
      ensures Valid() && subscriptions == old(subscriptions)
      ensures subscriptions.None? ==> st == Normal && log == old(log)
      ensures subscriptions.Some? ==>
                var subs := Subscribers(order);
                var n := FirstMissing(subs);
                && log == old(log) + Broadcast(Live(subs[..n]), Next(item))
                && st == if n == |order| then Normal else Raised(IllegalState)
    {
      if Closed() {
        return Normal;
      }
      var calls;
      calls, st := PostEach(order, item);
      log := log + calls;
      ValidKept();
    }

    /**
     * `complete()`: after `close()` nothing happens. Otherwise every
     * subscription in the set completes, in iteration order: each live
     * subscriber receives `complete` once. The set is unchanged.
     */
    method Complete(order: seq<Subscription>)
      requires Valid()
      requires subscriptions.Some? ==> Enumerates(order, subscriptions.value)
      modifies this, Members()
      ensures Valid() && subscriptions == old(subscriptions)
      ensures subscriptions.None? ==> log == old(log)
      ensures subscriptions.Some? ==>
                && log == old(log) + Broadcast(Live(old(Subscribers(order))), Signal.Complete)
                && (forall s :: s in Members() ==> s.IsCompleted())
    {
      if Closed() {
        return;
      }
      var calls := CompleteEach(order);
      log := log + calls;
    }

    /**
     * `cancel()`: a no-op on a completed subscription. Otherwise the
     * subscription is marked completed and closed, leaves the set (a
     * `NullPointerException` once `close()` has dropped the set), and
     * unregisters its permit lock, which first opens it.
     */
    method Cancel(s: Subscription) returns (st: Status)
      requires Valid()
      requires s.subscriber.Some? && subscriptions.Some? ==> s in Members()
      modifies this, s, proc
      ensures Valid() && log == old(log) && handshakes == old(handshakes)
      ensures old(s.subscriber).None? ==>
                st == Normal && unchanged(s, proc) && subscriptions == old(subscriptions)
      ensures old(s.subscriber).Some? ==> s.IsCompleted() && s.closed
      ensures old(s.subscriber).Some? && old(subscriptions).None? ==>
                st == Raised(NullPointer) && subscriptions.None? && unchanged(proc)
      ensures old(s.subscriber).Some? && old(subscriptions).Some? ==>
                && st == Normal
                && subscriptions == Some(old(subscriptions).value - {s})
                && proc.Unregistered(s.permit.pin)
    {
      if s.subscriber.None? {
        return Normal;
      }
      s.subscriber := None;
      s.closed := true;
      if subscriptions.None? {
        return Raised(NullPointer);
      }
      var rest := subscriptions.value - {s};
      subscriptions := Some(rest);
      var p := s.permit.pin;
      var _ := proc.UnRegisterLock(p);
      ValidAfterRemoval(s);
      st := Normal;
    }

    /**
     * `postFailure(throwable)` on one subscription: refused with
     * `IllegalStateException` once it is completed; otherwise the error
     * goes to its subscriber and the subscription cancels, so it counts as
     * completed afterwards.
     */
    method PostFailureTo(s: Subscription, e: Option<Throwable>) returns (st: Status)
      requires Valid()
      requires s.subscriber.Some? && subscriptions.Some? ==> s in Members()
      modifies this, s, proc
      ensures Valid() && handshakes == old(handshakes)
      ensures old(s.subscriber).None? ==>
                st == Raised(IllegalState) && log == old(log) && unchanged(s, proc) && subscriptions == old(subscriptions)
      ensures old(s.subscriber).Some? ==>
                && log == old(log) + [Delivery(old(s.subscriber).value, Error(e))]
                && s.IsCompleted() && s.closed
                && subscriptions == (if old(subscriptions).None? then None else Some(old(subscriptions).value - {s}))
                && st == (if old(subscriptions).None? then Raised(NullPointer) else Normal)
      ensures old(s.subscriber).Some? && old(subscriptions).None? ==> unchanged(proc)
      ensures old(s.subscriber).Some? && old(subscriptions).Some? ==> proc.Unregistered(s.permit.pin)
    {
      if s.subscriber.None? {
        return Raised(IllegalState);
      }
      log := log + [Delivery(s.subscriber.value, Error(e))];
      st := Cancel(s);
    }

    /**
     * `request(n)`: `release(n)` on the subscription's permit: a negative
     * `n` is an illegal argument; otherwise the counter grows by `n` and
     * the permit lock opens when the counter turns positive.
     */
    method Request(s: Subscription, n: int) returns (st: Status)
      requires Valid() && s in Members()
      modifies s.permit, proc
      ensures Valid()
      ensures n < 0 ==> st == Raised(IllegalArgument) && s.permit.count == old(s.permit.count) && unchanged(proc)
      ensures n >= 0 ==> st == Normal && s.permit.count == old(s.permit.count) + n
      ensures n >= 0 && old(s.permit.count) <= 0 && s.permit.count > 0 ==> proc.TurnedOn(s.permit.pin)
      ensures n >= 0 && !(old(s.permit.count) <= 0 && s.permit.count > 0) ==> unchanged(proc)
    {
      st := s.permit.Release(n);
    }
  }
}
