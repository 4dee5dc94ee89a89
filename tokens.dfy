/**
 * Values shared by every part of the dataflow core: tokens, the Java
 * throwables the core stores or raises, what a subscriber port receives,
 * and two small sequence helpers (first-occurrence removal, broadcast).
 */
module Tokens {

  /** A token carried by a connector. Java's `null` is `None` in an `Option<Value>`. */
  type Value = int

  /** A subscriber (a `Port`, `Subscriber` or `StreamSubscriber` object), identified by a number. */
  type SubscriberId = nat

  /** An upstream subscription object handed to `onSubscribe`, identified by a number. */
  type SubscriptionId = nat

  datatype Option<T> = None | Some(value: T)

  /**
   * Every Java throwable the core raises, stores or forwards: a failure
   * produced by user code or an upstream source (`Failure`), and the
   * library's own exceptions, some of which wrap a cause.
   */
  datatype Throwable =
    | Failure(id: int)
    | IllegalArgument
    | NullPointer
    | IllegalState
    | IllegalStateOf(cause: Throwable)
    | RuntimeOf(cause: Throwable)
    | Cancellation

  /** How a `void` operation ends: normally, or by throwing. */
  datatype Status = Normal | Raised(ex: Throwable)

  /** How a value-returning operation ends: with a value, or by throwing. */
  datatype Result<T> = Return(value: T) | Throw(ex: Throwable)

  /**
   * What a subscriber port receives: `onNext`, `onError` or `onComplete`.
   * An `onError` passes on whatever it was given, `null` (`None`) included.
   */
  datatype Signal = Next(value: Value) | Error(cause: Option<Throwable>) | Complete

  /** One call made on a subscriber. */
  datatype Delivery = Delivery(to: SubscriberId, signal: Signal)

  /** The calls a loop `for (s : subs) s.<signal>` makes, in order. */
  function Broadcast(subs: seq<SubscriberId>, signal: Signal): seq<Delivery>
  {
    if subs == [] then []
    else Broadcast(subs[..|subs| - 1], signal) + [Delivery(subs[|subs| - 1], signal)]
  }

  /** A broadcast reaches every listed subscriber exactly once, in list order, with the same signal. */
  lemma {:induction false} BroadcastAt(subs: seq<SubscriberId>, signal: Signal, k: nat)
    requires k < |subs|
    ensures |Broadcast(subs, signal)| == |subs|
    ensures Broadcast(subs, signal)[k] == Delivery(subs[k], signal)
  {
    var n := |subs| - 1;
    BroadcastLength(subs[..n], signal);
    if k < n {
      BroadcastAt(subs[..n], signal, k);
    }
  }

  lemma {:induction false} BroadcastLength(subs: seq<SubscriberId>, signal: Signal)
    ensures |Broadcast(subs, signal)| == |subs|
  {
    if subs != [] {
      BroadcastLength(subs[..|subs| - 1], signal);
    }
  }

  /** One step of a delivery loop: the broadcast over a prefix grows by one call. */
  lemma BroadcastStep(subs: seq<SubscriberId>, signal: Signal, k: nat)
    requires k < |subs|
    ensures Broadcast(subs[..k + 1], signal) == Broadcast(subs[..k], signal) + [Delivery(subs[k], signal)]
  {
    assert subs[..k + 1][..k] == subs[..k];
  }

  /** The loop `for (s : subs) s.<signal>`: the calls it makes, in order. */
  method Notify(subs: seq<SubscriberId>, signal: Signal) returns (calls: seq<Delivery>)
    ensures |calls| == |subs|
    ensures forall k :: 0 <= k < |subs| ==> calls[k] == Delivery(subs[k], signal)
    ensures calls == Broadcast(subs, signal)
  {
    calls := [];
    var k := 0;
    while k < |subs|
      invariant 0 <= k <= |subs|
      invariant calls == Broadcast(subs[..k], signal)
    {
      BroadcastStep(subs, signal, k);
      calls := calls + [Delivery(subs[k], signal)];
      k := k + 1;
    }
    assert subs[..k] == subs;
    BroadcastLength(subs, signal);
    forall k | 0 <= k < |subs| ensures calls[k] == Delivery(subs[k], signal) {
      BroadcastAt(subs, signal, k);
    }
  }

  /** No element occurs twice. */
  ghost predicate Distinct<T>(s: seq<T>)
  {
    forall i, j :: 0 <= i < j < |s| ==> s[i] != s[j]
  }

  /** `order` is one iteration order of the set `s`: every member exactly once. */
  ghost predicate Enumerates<T>(order: seq<T>, s: set<T>)
  {
    && Distinct(order)
    && (forall i :: 0 <= i < |order| ==> order[i] in s)
    && (forall x :: x in s ==> x in order)
  }

  /** The subscribers still attached, in order; a dropped (`null`) subscriber is skipped. */
  function Live(xs: seq<Option<SubscriberId>>): (r: seq<SubscriberId>)
    ensures |r| <= |xs|
  {
    if xs == [] then []
    else
      var init := xs[..|xs| - 1];
      assert xs == init + [xs[|xs| - 1]];
      Live(init) + (if xs[|xs| - 1].Some? then [xs[|xs| - 1].value] else [])
  }

  /** Exactly the attached subscribers of `xs` are in `Live(xs)`. */
  lemma {:induction false} LiveMembers(xs: seq<Option<SubscriberId>>, y: SubscriberId)
    ensures y in Live(xs) <==> Some(y) in xs
  {
    if xs != [] {
      var init := xs[..|xs| - 1];
      assert xs == init + [xs[|xs| - 1]];
      LiveMembers(init, y);
    }
  }

  /** With no dropped subscriber, `Live` keeps every entry, in place. */
  lemma {:induction false} LiveAllAttached(xs: seq<Option<SubscriberId>>)
    requires forall j :: 0 <= j < |xs| ==> xs[j].Some?
    ensures |Live(xs)| == |xs| && forall j :: 0 <= j < |xs| ==> Live(xs)[j] == xs[j].value
  {
    if xs != [] {
      LiveAllAttached(xs[..|xs| - 1]);
    }
  }

  /** The position of the first dropped (`null`) subscriber, or the length when there is none. */
  function FirstMissing(xs: seq<Option<SubscriberId>>): (n: nat)
    ensures n <= |xs|
    ensures n < |xs| ==> xs[n].None?
  {
    if xs == [] || xs[0].None? then 0 else 1 + FirstMissing(xs[1..])
  }

  /** Every position before `FirstMissing(xs)` holds a subscriber. */
  lemma {:induction false} FirstMissingBefore(xs: seq<Option<SubscriberId>>, k: nat)
    requires k < FirstMissing(xs)
    ensures xs[k].Some?
  {
    if k > 0 {
      FirstMissingBefore(xs[1..], k - 1);
    }
  }

  /** One step of a loop over `xs` that stops at the first dropped subscriber. */
  lemma LiveStep(xs: seq<Option<SubscriberId>>, k: nat, signal: Signal)
    requires k < |xs| && xs[k].Some?
    ensures Broadcast(Live(xs[..k + 1]), signal) == Broadcast(Live(xs[..k]), signal) + [Delivery(xs[k].value, signal)]
  {
    assert xs[..k + 1][..k] == xs[..k];
    var l := Live(xs[..k]);
    assert (l + [xs[k].value])[..|l|] == l;
  }

  /** One step of a loop over `xs` that skips dropped subscribers. */
  lemma LiveSkip(xs: seq<Option<SubscriberId>>, k: nat)
    requires k < |xs| && xs[k].None?
    ensures Live(xs[..k + 1]) == Live(xs[..k])
  {
    assert xs[..k + 1][..k] == xs[..k];
  }

  /** The position of the first occurrence of `x` in `s`. */
  function IndexOf<T(==)>(s: seq<T>, x: T): (i: nat)
    requires x in s
    ensures i < |s| && s[i] == x && x !in s[..i]
  {
    if s[0] == x then 0
    else
      var i := 1 + IndexOf(s[1..], x);
      assert s[..i] == [s[0]] + s[1..][..i - 1];
      i
  }

  /**
   * `List.remove(Object)`: drop the first occurrence of `x`, if any; every
   * other element keeps its multiplicity and its relative order.
   */
  function RemoveFirst<T(==)>(s: seq<T>, x: T): (r: seq<T>)
    ensures x !in s ==> r == s
    ensures x in s ==> |r| == |s| - 1 && multiset(r) == multiset(s) - multiset{x}
  {
    if x !in s then s
    else
      var i := IndexOf(s, x);
      assert s == s[..i] + [x] + s[i + 1..];
      s[..i] + s[i + 1..]
  }

  /** The elements before the first `x` stay in place; those after it move down by one. */
  lemma RemoveFirstInOrder<T>(s: seq<T>, x: T)
    requires x in s
    ensures |RemoveFirst(s, x)| == |s| - 1
    ensures forall k :: 0 <= k < IndexOf(s, x) ==> RemoveFirst(s, x)[k] == s[k]
    ensures forall k :: IndexOf(s, x) <= k < |s| - 1 ==> RemoveFirst(s, x)[k] == s[k + 1]
  {
    var i := IndexOf(s, x);
    assert RemoveFirst(s, x) == s[..i] + s[i + 1..];
  }

  /** Removing `x` keeps every other element. */
  lemma RemoveFirstKeeps<T>(s: seq<T>, x: T, y: T)
    requires y in s && y != x
    ensures y in RemoveFirst(s, x)
  {
    var r := RemoveFirst(s, x);
    if x in s {
      assert multiset(s)[y] > 0;
      assert multiset(r)[y] == multiset(s)[y];
    }
  }
}
