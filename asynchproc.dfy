/**
 * Package `asynchproc`: `PickPoint`, an unbounded token queue whose output
 * end is matched against one-shot requests (a subscriber asking for one
 * token). Tokens and requests wait in two FIFO queues, and never both at
 * once.
 */
module Asynchproc {
  import opened Tokens

  class PickPoint {
    /** `resources`: tokens waiting for a request, oldest first. */
    var resources: seq<Value>
    var completed: bool
    /** `requests`: subscribers waiting for a token, oldest first; `null` (`None`) once completed. */
    var requests: Option<seq<SubscriberId>>
    /** The calls made on subscribers, in order. */
    ghost var log: seq<Delivery>
    /** Every token `onNext` has accepted, in arrival order. */
    ghost var accepted: seq<Value>
    /** Every token that has left the queue (to a request, a subscriber or `take`), in leaving order. */
    ghost var taken: seq<Value>

    ghost predicate Valid()
      reads this
    {
      && (completed <==> requests.None?)
      && (resources != [] ==> requests.None? || requests == Some([]))
      && accepted == taken + resources
    }

    constructor ()
      ensures Valid()
      ensures resources == [] && !completed && requests == Some([]) && log == [] && accepted == [] && taken == []
    {
      resources, completed, requests := [], false, Some([]);
      log, accepted, taken := [], [], [];
    }

    /** `isCompleted()`. */
    predicate IsCompleted()
      reads this
    {
      completed
    }

    /**
     * `onNext(token)`: refused once completed; otherwise the oldest
     * pending request receives the token and leaves the queue, or, with
     * no request pending, the token joins the end of `resources`.
     */
    method OnNext(token: Value) returns (st: Status)
      requires Valid()
      modifies this
      ensures Valid() && completed == old(completed)
      ensures old(completed) ==> st == Raised(IllegalState) && unchanged(this)
      ensures !old(completed) ==> st == Normal && accepted == old(accepted) + [token]
      ensures !old(completed) && old(requests) == Some([]) ==>
                resources == old(resources) + [token] && requests == old(requests)
                && log == old(log) && taken == old(taken)
      ensures !old(completed) && old(requests) != Some([]) ==>
                && old(resources) == [] && resources == []
                && requests == Some(old(requests).value[1..])
                && log == old(log) + [Delivery(old(requests).value[0], Next(token))]
                && taken == old(taken) + [token]
    {
      if completed {
        return Raised(IllegalState);
      }
      accepted := accepted + [token];
      var waiting := requests.value;
      if waiting == [] {
        resources := resources + [token];
      } else {
        log := log + [Delivery(waiting[0], Next(token))];
        taken := taken + [token];
        requests := Some(waiting[1..]);
      }
      st := Normal;
    }

    /**
     * `onComplete()`: a repeat call does nothing; the first call marks the
     * queue completed, signals `onComplete` to every pending request
     * exactly once in queue order, and drops the request queue.
     */
    method OnComplete()
      requires Valid()
      modifies this
      ensures Valid() && completed && requests.None?
      ensures resources == old(resources) && accepted == old(accepted) && taken == old(taken)
      ensures old(completed) ==> log == old(log)
      ensures !old(completed) ==> log == old(log) + Broadcast(old(requests).value, Complete)
    {
      if completed {
        return;
      }
      completed := true;
      var calls := Notify(requests.value, Complete);
      log := log + calls;
      requests := None;
    }

    /**
     * `subscribe(subscriber)`: refused once completed, even when tokens
     * remain; otherwise the subscriber receives the oldest token, or, with
     * no token waiting, joins the end of the request queue.
     */
    method Subscribe(subscriber: SubscriberId) returns (st: Status)
      requires Valid()
      modifies this
      ensures Valid() && completed == old(completed) && accepted == old(accepted)
      ensures old(completed) ==> st == Raised(IllegalState) && unchanged(this)
      ensures !old(completed) ==> st == Normal
      ensures !old(completed) && old(resources) == [] ==>
                requests == Some(old(requests).value + [subscriber]) && log == old(log) && taken == old(taken)
                && resources == []
      ensures !old(completed) && old(resources) != [] ==>
                && resources == old(resources)[1..] && requests == old(requests)
                && log == old(log) + [Delivery(subscriber, Next(old(resources)[0]))]
                && taken == old(taken) + [old(resources)[0]]
    {
      if completed {
        return Raised(IllegalState);
      }
      if resources == [] {
        requests := Some(requests.value + [subscriber]);
      } else {
        var token := resources[0];
        log := log + [Delivery(subscriber, Next(token))];
        taken := taken + [token];
        resources := resources[1..];
      }
      st := Normal;
    }

    /**
     * `take()` and `poll(timeout, unit)` up to their blocking wait. With a
     * token waiting and no request pending, the oldest token is removed
     * and returned (`Some`). Otherwise the fresh promise `future` is
     * subscribed and `None` says the caller now waits on it. Once
     * completed, the fast-path test itself dereferences the dropped
     * request queue when tokens remain (a `NullPointerException`), and
     * `subscribe` refuses when none remain.
     */
    method Take(future: SubscriberId) returns (r: Result<Option<Value>>)
      requires Valid()
      modifies this
      ensures Valid() && completed == old(completed) && accepted == old(accepted)
      ensures old(completed) && old(resources) != [] ==> r == Throw(NullPointer) && unchanged(this)
      ensures old(completed) && old(resources) == [] ==> r == Throw(IllegalState) && unchanged(this)
      ensures !old(completed) && old(resources) != [] ==>
                && r == Return(Some(old(resources)[0]))
                && resources == old(resources)[1..] && requests == old(requests)
                && log == old(log) && taken == old(taken) + [old(resources)[0]]
      ensures !old(completed) && old(resources) == [] ==>
                && r == Return(None)
                && requests == Some(old(requests).value + [future])
                && resources == [] && log == old(log) && taken == old(taken)
    {
      if resources != [] {
        if requests.None? {
          return Throw(NullPointer);
        }
        if requests.value == [] {
          var token := resources[0];
          resources := resources[1..];
          taken := taken + [token];
          return Return(Some(token));
        }
      }
      var st := Subscribe(future);
      if st.Raised? {
        return Throw(st.ex);
      }
      r := Return(None);
    }
  }

  /** Tokens leave a pick point in the order they arrived: what has left is a prefix of what arrived. */
  lemma TokensLeaveInArrivalOrder(p: PickPoint)
    requires p.Valid()
    ensures |p.taken| <= |p.accepted| && p.taken == p.accepted[..|p.taken|]
    ensures p.resources == p.accepted[|p.taken|..]
  {
  }
}
