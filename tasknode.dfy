/**
 * The activation engine of `tasknode/AsyncProc.java`: a node owns pins
 * (locks and token connectors), each with a `blocked` bit; the node keeps
 * the number of blocked pins and calls `fire()` (hands itself to its
 * executor) exactly when that number drops to zero.
 *
 * The pins live in an arena owned by the node: pin number `p` is index `p`
 * of `blocked`, so `|blocked|` is the node's `pinCount`. This one gate
 * model also stands for the gate base classes of the other packages
 * (their `block()`/`unblock()` are `TurnOff`/`TurnOn` here).
 */
module TaskNode {
  import opened Tokens

  /** The number of blocked pins. */
  function CountBlocked(bits: seq<bool>): (n: nat)
    ensures n <= |bits|
    ensures n == 0 <==> forall i :: 0 <= i < |bits| ==> !bits[i]
    ensures n == |bits| <==> forall i :: 0 <= i < |bits| ==> bits[i]
  {
    if bits == [] then 0
    else (if bits[0] then 1 else 0) + CountBlocked(bits[1..])
  }

  /** Flipping one pin changes the count by exactly the change of that pin. */
  lemma {:induction false} CountBlockedUpdate(bits: seq<bool>, i: nat, b: bool)
    requires i < |bits|
    ensures CountBlocked(bits[i := b]) == CountBlocked(bits) - (if bits[i] then 1 else 0) + (if b then 1 else 0)
  {
    if i == 0 {
      assert bits[i := b][1..] == bits[1..];
    } else {
      assert bits[i := b][1..] == bits[1..][i - 1 := b];
      CountBlockedUpdate(bits[1..], i - 1, b);
    }
  }

  /** A new pin adds one to the count exactly when it is created blocked. */
  lemma {:induction false} CountBlockedAppend(bits: seq<bool>, b: bool)
    ensures CountBlocked(bits + [b]) == CountBlocked(bits) + (if b then 1 else 0)
  {
    if bits != [] {
      assert (bits + [b])[1..] == bits[1..] + [b];
      CountBlockedAppend(bits[1..], b);
    }
  }

  class AsyncProc {
    /** `BaseLock.blocked` of every pin created so far, indexed by pin number. */
    var blocked: seq<bool>
    /** `blockedPinCount`. */
    var blockedPinCount: int
    /** The registered `Lock`s (by pin number), in registration order. */
    var locks: seq<nat>
    /** The registered `ConstInput`s, in registration order. */
    var asyncParams: seq<ConstInput>
    /** How many times `fire()` has handed this node to its executor. */
    ghost var fired: nat

    ghost predicate Valid()
      reads this
    {
      && blockedPinCount == CountBlocked(blocked)
      && (forall k :: 0 <= k < |locks| ==> locks[k] < |blocked|)
      && (forall j, k :: 0 <= j < k < |locks| ==> locks[j] != locks[k])
      && (forall k :: 0 <= k < |asyncParams| ==> asyncParams[k].proc == this && asyncParams[k].pin < |blocked|)
      && (forall j, k :: 0 <= j < k < |asyncParams| ==> asyncParams[j] != asyncParams[k])
    }

    constructor ()
      ensures Valid()
      ensures blocked == [] && blockedPinCount == 0 && locks == [] && asyncParams == [] && fired == 0
    {
      blocked, blockedPinCount, locks, asyncParams := [], 0, [], [];
      fired := 0;
    }

    /** `pinCount`: the number of pins created so far. */
    function PinCount(): nat
      reads this
    {
      |blocked|
    }

    /** The effect of `turnOn()` on pin `pin`: nothing when it is already on. */
    twostate predicate TurnedOn(pin: nat)
      reads this
    {
      && pin < |old(blocked)|
      && blocked == old(blocked)[pin := false]
      && blockedPinCount == old(blockedPinCount) - (if old(blocked)[pin] then 1 else 0)
      && fired == old(fired) + (if old(blocked)[pin] && old(blockedPinCount) == 1 then 1 else 0)
      && locks == old(locks) && asyncParams == old(asyncParams)
    }

    /** The effect of `unRegisterLock` on lock `pin`: turned on first, then dropped from `locks`. */
    twostate predicate Unregistered(pin: nat)
      reads this
    {
      && pin < |old(blocked)|
      && blocked == old(blocked)[pin := false]
      && blockedPinCount == old(blockedPinCount) - (if old(blocked)[pin] then 1 else 0)
      && fired == old(fired) + (if old(blocked)[pin] && old(blockedPinCount) == 1 then 1 else 0)
      && locks == RemoveFirst(old(locks), pin) && asyncParams == old(asyncParams)
    }

    /** The effect of `turnOff()` on pin `pin`: nothing when it is already off. */
    twostate predicate TurnedOff(pin: nat)
      reads this
    {
      && pin < |old(blocked)|
      && blocked == old(blocked)[pin := true]
      && blockedPinCount == old(blockedPinCount) + (if old(blocked)[pin] then 0 else 1)
      && fired == old(fired)
      && locks == old(locks) && asyncParams == old(asyncParams)
    }

    /**
     * The effect of `turnOff()` followed by `turnOn()` on pin `pin`: the pin
     * ends open, and the node fires exactly when no pin is left blocked.
     */
    twostate predicate Reopened(pin: nat)
      reads this
    {
      && pin < |old(blocked)|
      && blocked == old(blocked)[pin := false]
      && blockedPinCount == old(blockedPinCount) - (if old(blocked)[pin] then 1 else 0)
      && fired == old(fired) + (if blockedPinCount == 0 then 1 else 0)
      && locks == old(locks) && asyncParams == old(asyncParams)
    }

    /**
     * The `BaseLock(blocked)` constructor up to its `register()` call: the
     * pin takes the next number and counts as blocked when created blocked.
     */
    method NewPin(initiallyBlocked: bool) returns (pin: nat)
      requires Valid()
      modifies this
      ensures Valid()
      ensures pin == old(PinCount())
      ensures blocked == old(blocked) + [initiallyBlocked]
      ensures blockedPinCount == old(blockedPinCount) + (if initiallyBlocked then 1 else 0)
      ensures locks == old(locks) && asyncParams == old(asyncParams) && fired == old(fired)
    {
      pin := |blocked|;
      CountBlockedAppend(blocked, initiallyBlocked);
      blocked := blocked + [initiallyBlocked];
      if initiallyBlocked {
        blockedPinCount := blockedPinCount + 1;
      }
    }

    /** `new Lock(blocked)`: a new pin registered at the end of `locks`. */
    method NewLock(initiallyBlocked: bool) returns (pin: nat)
      requires Valid()
      modifies this
      ensures Valid()
      ensures pin == old(PinCount())
      ensures blocked == old(blocked) + [initiallyBlocked]
      ensures blockedPinCount == old(blockedPinCount) + (if initiallyBlocked then 1 else 0)
      ensures locks == old(locks) + [pin]
      ensures asyncParams == old(asyncParams) && fired == old(fired)
    {
      pin := NewPin(initiallyBlocked);
      locks := locks + [pin];
    }

    /**
     * `turnOn()`: false and no change on a pin that is already on;
     * otherwise the pin opens, the count drops by one, and the node fires
     * exactly when the count reaches zero.
     */
    method TurnOn(pin: nat) returns (changed: bool, fire: bool)
      requires Valid() && pin < PinCount()
      modifies this
      ensures Valid() && TurnedOn(pin)
      ensures changed == old(blocked)[pin]
      ensures fire <==> changed && blockedPinCount == 0
    {
      if !blocked[pin] {
        return false, false;
      }
      CountBlockedUpdate(blocked, pin, false);
      blocked := blocked[pin := false];
      blockedPinCount := blockedPinCount - 1;
      changed := true;
      fire := blockedPinCount == 0;
      if fire {
        fired := fired + 1;
      }
    }

    /** `turnOff()`: no change on a pin that is already off; otherwise the pin closes and the count grows by one. */
    method TurnOff(pin: nat)
      requires Valid() && pin < PinCount()
      modifies this
      ensures Valid() && TurnedOff(pin)
    {
      if blocked[pin] {
        return;
      }
      CountBlockedUpdate(blocked, pin, true);
      blocked := blocked[pin := true];
      blockedPinCount := blockedPinCount + 1;
    }

    /** `Lock.unRegister()`: a blocked lock is first turned on (which may fire), then removed from `locks`. */
    method UnRegisterLock(pin: nat) returns (fire: bool)
      requires Valid() && pin < PinCount() && pin in locks
      modifies this
      ensures Valid()
      ensures blocked == old(blocked)[pin := false]
      ensures blockedPinCount == old(blockedPinCount) - (if old(blocked)[pin] then 1 else 0)
      ensures fire <==> old(blocked)[pin] && old(blockedPinCount) == 1
      ensures fired == old(fired) + (if fire then 1 else 0)
      ensures locks == RemoveFirst(old(locks), pin) && asyncParams == old(asyncParams)
    {
      fire := false;
      if blocked[pin] {
        var changed;
        changed, fire := TurnOn(pin);
      }
      RemoveFirstKeepsDistinct(locks, pin);
      locks := RemoveFirst(locks, pin);
    }

    /**
     * `new ConstInput()`: the pin is created blocked and counted before
     * `register()` runs, so a registration refused because the node has
     * started (`started` is the answer of the subclass's `isStarted()`)
     * still leaves that blocked pin behind.
     */
    method NewConstInput(started: bool) returns (r: Result<ConstInput>)
      requires Valid()
      modifies this
      ensures Valid()
      ensures blocked == old(blocked) + [true] && blockedPinCount == old(blockedPinCount) + 1
      ensures locks == old(locks) && fired == old(fired)
      ensures started ==> r == Throw(IllegalState) && asyncParams == old(asyncParams)
      ensures !started ==> r.Return? && fresh(r.value) && asyncParams == old(asyncParams) + [r.value]
      ensures !started ==> r.value.proc == this && r.value.pin == old(PinCount()) && r.value.Empty()
    {
      var pin := NewPin(true);
      if started {
        return Throw(IllegalState);
      }
      var input := new ConstInput(this, pin);
      asyncParams := asyncParams + [input];
      r := Return(input);
    }

    /**
     * `collectTokens()`: the `current()` of every registered parameter, in
     * registration order (an empty array when there are none); the first
     * parameter holding an error makes it throw `IllegalStateException`
     * wrapping that error.
     */
    method CollectTokens() returns (r: Result<seq<Option<Value>>>)
      requires Valid()
      ensures r.Return? <==> forall k :: 0 <= k < |asyncParams| ==> asyncParams[k].exception.None?
      ensures r.Return? ==> |r.value| == |asyncParams|
      ensures r.Return? ==> forall k :: 0 <= k < |asyncParams| ==> r.value[k] == asyncParams[k].current
      ensures r.Throw? ==> exists k :: 0 <= k < |asyncParams| && asyncParams[k].exception.Some?
                                && r.ex == IllegalStateOf(asyncParams[k].exception.value)
                                && forall j :: 0 <= j < k ==> asyncParams[j].exception.None?
    {
      var args: seq<Option<Value>> := [];
      var k := 0;
      while k < |asyncParams|
        invariant 0 <= k <= |asyncParams| && |args| == k
        invariant forall j :: 0 <= j < k ==> asyncParams[j].exception.None? && args[j] == asyncParams[j].current
      {
        var token := asyncParams[k].Current();
        if token.Throw? {
          return Throw(token.ex);
        }
        args := args + [token.value];
        k := k + 1;
      }
      r := Return(args);
    }
  }

  /** Removing an element keeps a duplicate-free list duplicate-free and adds nothing. */
  lemma RemoveFirstKeepsDistinct<T>(s: seq<T>, x: T)
    requires forall j, k :: 0 <= j < k < |s| ==> s[j] != s[k]
    ensures forall j, k :: 0 <= j < k < |RemoveFirst(s, x)| ==> RemoveFirst(s, x)[j] != RemoveFirst(s, x)[k]
    ensures forall y :: y in RemoveFirst(s, x) ==> y in s
  {
    if x in s {
      var i := IndexOf(s, x);
      DropAtKeepsDistinct(s, i, RemoveFirst(s, x));
    }
  }

  /** Dropping position `i` keeps a duplicate-free list duplicate-free and adds nothing. */
  lemma DropAtKeepsDistinct<T>(s: seq<T>, i: nat, r: seq<T>)
    requires i < |s| && r == s[..i] + s[i + 1..]
    requires forall j, k :: 0 <= j < k < |s| ==> s[j] != s[k]
    ensures forall j, k :: 0 <= j < k < |r| ==> r[j] != r[k]
    ensures forall y :: y in r ==> y in s
  {
    assert |r| == |s| - 1;
    forall m | 0 <= m < |r| ensures r[m] == s[if m < i then m else m + 1] {
    }
    forall j, k | 0 <= j < k < |r| ensures r[j] != r[k] {
      var j' := if j < i then j else j + 1;
      var k' := if k < i then k else k + 1;
      assert j' < k' < |s|;
    }
    forall y | y in r ensures y in s {
      var m :| 0 <= m < |r| && r[m] == y;
    }
  }

  /**
   * `AsyncProc.ConstInput`: a place for one token that is never consumed.
   * Its `completed` flag is declared but never assigned, so `isDone()`
   * holds only once an error is stored, and a second token is accepted.
   */
  class ConstInput {
    const proc: AsyncProc
    const pin: nat
    var subscription: Option<SubscriptionId>
    var cancelled: bool
    const completed: bool := false
    var current: Option<Value>
    var exception: Option<Throwable>
    /** The upstream subscriptions this input has cancelled, oldest first. */
    ghost var upstreamCancels: seq<SubscriptionId>

    constructor (proc: AsyncProc, pin: nat)
      ensures this.proc == proc && this.pin == pin && Empty()
    {
      this.proc, this.pin := proc, pin;
      subscription, cancelled, current, exception := None, false, None, None;
      upstreamCancels := [];
    }

    /** No token, no error, no subscription, and never cancelled. */
    ghost predicate Empty()
      reads this
    {
      subscription.None? && !cancelled && current.None? && exception.None? && upstreamCancels == []
    }

    ghost predicate Valid()
      reads this, proc
    {
      proc.Valid() && pin < proc.PinCount()
    }

    predicate IsDone()
      reads this
    {
      completed || exception.Some?
    }

    /** `current()`: the token, unless an error is stored. */
    function Current(): Result<Option<Value>>
      reads this
    {
      if exception.Some? then Throw(IllegalStateOf(exception.value)) else Return(current)
    }

    method OnSubscribe(s: SubscriptionId)
      modifies this
      ensures subscription == Some(s)
      ensures cancelled == old(cancelled) && current == old(current) && exception == old(exception)
      ensures upstreamCancels == old(upstreamCancels)
    {
      subscription := Some(s);
    }

    /**
     * `onNext(message)`: a null token is an illegal argument, a token after
     * a stored error an illegal state; otherwise the token is stored and the
     * pin turned on (which fires the node when it was its last blocked pin).
     */
    method OnNext(message: Option<Value>) returns (st: Status)
      requires Valid()
      modifies this, proc
      ensures Valid()
      ensures message.None? ==> st == Raised(IllegalArgument)
      ensures message.Some? && old(exception).Some? ==> st == Raised(IllegalState)
      ensures st.Normal? <==> message.Some? && old(exception).None?
      ensures st.Normal? ==> current == message && proc.TurnedOn(pin)
      ensures !st.Normal? ==> current == old(current) && unchanged(proc)
      ensures exception == old(exception) && subscription == old(subscription) && cancelled == old(cancelled)
      ensures upstreamCancels == old(upstreamCancels)
    {
      if message.None? {
        return Raised(IllegalArgument);
      }
      if IsDone() {
        return Raised(IllegalState);
      }
      current := message;
      var _, _ := proc.TurnOn(pin);
      st := Normal;
    }

    /**
     * `onError(e)`: stores the error without turning the pin on; a second
     * error is an illegal state. A `null` error is stored as it is, which
     * changes nothing.
     */
    method OnError(e: Option<Throwable>) returns (st: Status)
      modifies this
      ensures st.Normal? <==> old(exception).None?
      ensures !st.Normal? ==> st == Raised(IllegalState)
      ensures exception == if st.Normal? then e else old(exception)
      ensures current == old(current) && subscription == old(subscription) && cancelled == old(cancelled)
      ensures upstreamCancels == old(upstreamCancels)
    {
      if IsDone() {
        return Raised(IllegalState);
      }
      exception := e;
      st := Normal;
    }

    /** `onComplete()` forwards `null` to `onNext`, so it always throws `IllegalArgumentException`. */
    method OnComplete() returns (st: Status)
      requires Valid()
      modifies this, proc
      ensures st == Raised(IllegalArgument)
      ensures current == old(current) && exception == old(exception) && unchanged(proc)
    {
      st := OnNext(None);
    }

    /** `cancel()`: nothing without a subscription; otherwise the subscription is cancelled upstream and dropped. */
    method Cancel()
      modifies this
      ensures old(subscription).None? ==> unchanged(this)
      ensures old(subscription).Some? ==>
                subscription.None? && cancelled && upstreamCancels == old(upstreamCancels) + [old(subscription).value]
      ensures current == old(current) && exception == old(exception)
    {
      if subscription.None? {
        return;
      }
      var s := subscription.value;
      subscription := None;
      cancelled := true;
      upstreamCancels := upstreamCancels + [s];
    }

    /** `ConstInput.unRegister()`: refused after start; a blocked pin is turned on (which may fire) before removal. */
    method UnRegister(started: bool) returns (st: Status)
      requires Valid()
      modifies proc
      ensures Valid()
      ensures started ==> st == Raised(IllegalState) && unchanged(proc)
      ensures !started ==> st == Normal
      ensures !started ==> proc.blocked == old(proc.blocked)[pin := false]
      ensures !started ==> proc.blockedPinCount == old(proc.blockedPinCount) - (if old(proc.blocked)[pin] then 1 else 0)
      ensures !started ==> proc.fired == old(proc.fired) + (if old(proc.blocked)[pin] && old(proc.blockedPinCount) == 1 then 1 else 0)
      ensures !started ==> proc.asyncParams == RemoveFirst(old(proc.asyncParams), this) && proc.locks == old(proc.locks)
    {
      if started {
        return Raised(IllegalState);
      }
      if proc.blocked[pin] {
        var _, _ := proc.TurnOn(pin);
      }
      RemoveFirstKeepsDistinct(proc.asyncParams, this);
      proc.asyncParams := RemoveFirst(proc.asyncParams, this);
      st := Normal;
    }
  }
}
