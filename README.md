# df4j dataflow core, modelled in Dafny

df4j is a Java library for dataflow programming. A *node* owns some *pins*:
locks and token connectors. Each pin is either blocked or open. The node
counts its blocked pins, and it hands itself to its executor (`fire()`)
exactly when that count drops to zero. Connectors feed tokens into pins.
Feeders and outputs buffer tokens and multicast them to subscribers. A node
publishes its outcome through a one-shot result promise. Combinators such as
`AllOf` and `AnyOf` join several such results.

This project models that activation engine and its connectors, one Dafny
module per Java package:

- `TaskNode` (`tasknode.dfy`): the one gate model. It covers
  `tasknode/AsyncProc.java`: pins, locks, `ConstInput`, and
  `collectTokens`. The gate base classes of the other packages are treated
  as this gate (`block()`/`unblock()` are `TurnOff`/`TurnOn`).
- `Scalar`: `Semafor`, `ScalarFeeder` and `AnyOf` of package `scalar`.
- `Connector`: `ScalarInput` and `StreamFeeder` of package `connector`.
- `MessageScalar`: `ConstInput` and the pushback `ScalarInput` of
  `boundconnector.messagescalar`.
- `Asyncproc`: `ScalarInput`, `AllOf` and `AnyOf` of package `asyncproc`.
- `NodeExt`: `node.ext.AllOf`.
- `ActionNode` and `Actors`: the node lifecycles `node.AsyncAction` and
  `actor.Actor`.
- `TaskMessageScalar`: `AsyncSupplier` and `AllOf` of
  `tasknode.messagescalar`.
- `Asynchproc`: `PickPoint`.
- `MessageStream` and `ReactiveStream`: `StreamOutput` and
  `ReactiveOutput`.
- `Promises`: the result promise, a one-shot outcome cell.
- `Tokens`: the shared values. These are tokens, throwables, the signals a
  subscriber receives (`onNext`/`onError`/`onComplete`, as `Port.accept`
  dispatches them), `List.remove`, and the broadcast helpers.
- `Scenarios`: the tutorial test `SumSquareTest.testAP`, replayed on the
  model.

Each object whose fields the Java code updates is a Dafny `class` with the
same fields. Its methods carry `modifies` clauses, and their `ensures`
clauses state the new value of every field in that frame. Each class keeps a `Valid()` invariant,
and every method preserves it. Examples:

- `blockedPinCount` equals the number of blocked pins.
- A semaphore is blocked exactly when its count is at most zero.
- A feeder's buffer never exceeds its capacity.
- A buffer and its waiting list are never both non-empty.
- Tokens leave a queue in arrival order.

Subscribers are numbers. What a subscriber receives is recorded as a ghost
log of calls. The executor, the JDK's `CompletableFuture` and reflection are
replaced by a ghost `fired` counter, the `Promise` cell and a supplied
action body. When the source iterates a `HashSet`, the iteration order is
a parameter of the method, constrained to list each member exactly once.

The model follows the code as written. In particular, `ConstInput`'s
`completed` flag is never assigned in `tasknode/AsyncProc.java` or in
`boundconnector/messagescalar/ConstInput.java`. As a result:

- `isDone()` holds only once an error is stored.
- A second token replaces the first instead of being refused.

`boundconnector/messagescalar/ScalarInput.java` reads and writes a field
`value` (lines 36 and 49-57). Its base class `tasknode.AsyncProc.ConstInput`
declares no such field, only `current` (`tasknode/AsyncProc.java:256`). The
model takes `value` to be that `current`: `MessageScalar.ScalarInput` works
on the `current` of the tasknode `ConstInput` it wraps.

## Model

State-changing methods specify the new state with `old(...)`. Their rows
state what that contract promises.

| member | source | states |
|---|---|---|
| Tokens.BroadcastAt | df4j-core/src/main/java/org/df4j/core/connector/StreamFeeder.java:92-107 | a notification loop over a subscriber list makes exactly one call per listed subscriber, the k-th call going to the k-th subscriber with the same signal |
| Tokens.Notify | df4j-core/src/main/java/org/df4j/core/connector/StreamFeeder.java:92-107 | the calls of `for (s : subs) s.signal(...)`: one per subscriber, in list order |
| Tokens.Live | df4j-core/src/main/java/org/df4j/core/boundconnector/messagestream/StreamOutput.java:40-45 | the subscribers a set-wide loop can still reach, in iteration order; never more than the subscriptions visited |
| Tokens.LiveMembers | df4j-core/src/main/java/org/df4j/core/boundconnector/messagestream/StreamOutput.java:86-92 | a subscriber is reached by a set-wide loop exactly when some visited subscription still holds it (both directions) |
| Tokens.LiveAllAttached | df4j-core/src/main/java/org/df4j/core/boundconnector/messagestream/StreamOutput.java:40-45 | when no subscription has dropped its subscriber, the loop reaches every subscription in order |
| Tokens.FirstMissing | df4j-core/src/main/java/org/df4j/core/boundconnector/messagestream/StreamOutput.java:73-75 | where a `post` loop stops: within the list, and at a subscription whose subscriber is `null` |
| Tokens.FirstMissingBefore | df4j-core/src/main/java/org/df4j/core/boundconnector/messagestream/StreamOutput.java:73-75 | every subscription before that stopping point still holds its subscriber |
| Tokens.RemoveFirst | df4j-core/src/main/java/org/df4j/core/connector/StreamFeeder.java:63-65 | `LinkedList.remove(o)`: no change when absent; otherwise one element shorter and the multiset loses exactly one `o` |
| Tokens.RemoveFirstInOrder | df4j-core/src/main/java/org/df4j/core/connector/StreamFeeder.java:63-65 | the elements before the first `o` keep their positions; those after it move down by one, so the relative order is kept |
| Tokens.RemoveFirstKeeps | df4j-core/src/main/java/org/df4j/core/tasknode/AsyncProc.java:237 | removing one lock from `locks` keeps every other lock registered |
| TaskNode.CountBlocked | df4j-core/src/main/java/org/df4j/core/tasknode/AsyncProc.java:145-152 | the number of blocked pins: zero exactly when no pin is blocked, the pin count exactly when all are |
| TaskNode.CountBlockedUpdate | df4j-core/src/main/java/org/df4j/core/tasknode/AsyncProc.java:169-187 | changing one pin changes the blocked count by exactly the change of that pin, which is why `turnOn`/`turnOff` move `blockedPinCount` only on a real change |
| TaskNode.CountBlockedAppend | df4j-core/src/main/java/org/df4j/core/tasknode/AsyncProc.java:145-152 | a new pin adds one to the count exactly when it is created blocked |
| TaskNode.AsyncProc.NewPin | df4j-core/src/main/java/org/df4j/core/tasknode/AsyncProc.java:145-152 | a new pin takes the next pin number (so numbers are distinct and consecutive), and counts as blocked exactly when created blocked; `blockedPinCount` stays equal to the number of blocked pins |
| TaskNode.AsyncProc.constructor | df4j-core/src/main/java/org/df4j/core/tasknode/AsyncProc.java:70-76 | a new node has no pin, a zero blocked count and has never fired |
| TaskNode.AsyncProc.NewLock | df4j-core/src/main/java/org/df4j/core/tasknode/AsyncProc.java:215-231 | a `Lock` is such a pin, appended to `locks` |
| TaskNode.AsyncProc.TurnOn | df4j-core/src/main/java/org/df4j/core/tasknode/AsyncProc.java:177-187 | false and no change on an open pin; otherwise the pin opens, the count drops by one, and `fire()` happens exactly when the count reaches zero |
| TaskNode.AsyncProc.TurnOff | df4j-core/src/main/java/org/df4j/core/tasknode/AsyncProc.java:169-175 | idempotent: on a blocked pin nothing changes; otherwise the pin closes and the count grows by one; never fires |
| TaskNode.AsyncProc.UnRegisterLock | df4j-core/src/main/java/org/df4j/core/tasknode/AsyncProc.java:233-238 | a blocked lock is first turned on (firing exactly when it was the last blocked pin), then removed from `locks` |
| TaskNode.AsyncProc.NewConstInput | df4j-core/src/main/java/org/df4j/core/tasknode/AsyncProc.java:322-331 | registration after start is an `IllegalStateException` (its blocked pin is still counted); otherwise the input joins `asyncParams` at the end |
| TaskNode.AsyncProc.CollectTokens | df4j-core/src/main/java/org/df4j/core/tasknode/AsyncProc.java:109-120 | the `current()` of every parameter in registration order (empty with none), or the `IllegalStateException` of the first parameter holding an error (both directions) |
| TaskNode.ConstInput.constructor | df4j-core/src/main/java/org/df4j/core/tasknode/AsyncProc.java:255-261 | a new input holds no token, no error, no subscription, and is not cancelled |
| TaskNode.RemoveFirstKeepsDistinct | df4j-core/src/main/java/org/df4j/core/tasknode/AsyncProc.java:233-238 | removing a lock keeps `locks` duplicate-free and adds no lock |
| TaskNode.ConstInput.OnSubscribe | df4j-core/src/main/java/org/df4j/core/tasknode/AsyncProc.java:282-285 | stores the subscription and nothing else |
| TaskNode.ConstInput.OnNext | df4j-core/src/main/java/org/df4j/core/tasknode/AsyncProc.java:287-297 | `null` is an `IllegalArgumentException`, a token after a stored error an `IllegalStateException`; otherwise the token is stored (a second token replaces the first) and the pin turned on |
| TaskNode.ConstInput.OnError | df4j-core/src/main/java/org/df4j/core/tasknode/AsyncProc.java:299-305 | stores the error, `null` included, without touching the pin; a second error is an `IllegalStateException` |
| TaskNode.ConstInput.OnComplete | df4j-core/src/main/java/org/df4j/core/tasknode/AsyncProc.java:307-310 | always an `IllegalArgumentException`, changing nothing |
| TaskNode.ConstInput.Cancel | df4j-core/src/main/java/org/df4j/core/tasknode/AsyncProc.java:312-320 | no change without a subscription; otherwise drops it, sets `cancelled`, and cancels it upstream |
| TaskNode.ConstInput.UnRegister | df4j-core/src/main/java/org/df4j/core/tasknode/AsyncProc.java:333-341 | refused after start; otherwise a blocked pin is turned on (possibly firing) and the input leaves `asyncParams` |
| Scalar.Semafor.constructor | df4j-core/src/main/java/org/df4j/core/scalar/Semafor.java:15-19 | a new lock blocked exactly when the initial count is at most zero |
| Scalar.Semafor.Default | df4j-core/src/main/java/org/df4j/core/scalar/Semafor.java:21-23 | count zero, so the lock starts blocked |
| Scalar.Semafor.Release | df4j-core/src/main/java/org/df4j/core/scalar/Semafor.java:31-39 | a negative delta is an `IllegalArgumentException` and changes nothing; otherwise the count grows by exactly delta and the lock opens exactly on the crossing from <= 0 to > 0; blocked <=> count <= 0 is kept |
| Scalar.Semafor.Purge | df4j-core/src/main/java/org/df4j/core/scalar/Semafor.java:43-49 | the count drops by exactly one (it may go negative) and the lock closes exactly on the crossing from > 0 to <= 0; blocked <=> count <= 0 is kept |
| Scalar.ScalarFeeder.constructor | df4j-core/src/main/java/org/df4j/core/scalar/ScalarFeeder.java:23-26 | an open lock with an empty slot and no subscriber |
| Scalar.ScalarFeeder.Subscribe | df4j-core/src/main/java/org/df4j/core/scalar/ScalarFeeder.java:32-52 | a stored token is delivered and kept, and the lock opened; an empty live feeder queues the subscriber at the tail; an empty done feeder answers `onComplete` or `onError` with the stored error |
| Scalar.ScalarFeeder.UnSubscribe | df4j-core/src/main/java/org/df4j/core/scalar/ScalarFeeder.java:54-56 | drops the first occurrence; a `NullPointerException` once done (the list is gone) |
| Scalar.ScalarFeeder.OnNext | df4j-core/src/main/java/org/df4j/core/scalar/ScalarFeeder.java:58-79 | `null` is a `NullPointerException`, a done feeder an `IllegalStateException`; a waiting head subscriber gets the token and moves to the tail, slot untouched; otherwise the token fills the empty slot and closes the lock, and an occupied slot is an `IllegalStateException` |
| Scalar.ScalarFeeder.OnError | df4j-core/src/main/java/org/df4j/core/scalar/ScalarFeeder.java:81-96 | one-shot: the first call stores the error, `null` included, and notifies each waiting subscriber once, in order, with that same error; a second call is an `IllegalStateException` |
| Scalar.ScalarFeeder.OnComplete | df4j-core/src/main/java/org/df4j/core/scalar/ScalarFeeder.java:98-111 | one-shot: the first call notifies each waiting subscriber once, in order; a second call is an `IllegalStateException` |
| Scalar.AnyOf.constructor | df4j-core/src/main/java/org/df4j/core/scalar/AnyOf.java:8-12 | registers with every source, in order; the result is pending when registration ends, and a source that is already complete answers through the next `Accept` |
| Scalar.AnyOf.Accept | df4j-core/src/main/java/org/df4j/core/scalar/AnyOf.java:15-24 | the first arrival wins: once done nothing changes; a non-null exception fails the result, a null one completes it with the value, even `null` |
| Connector.ScalarInput.constructor | df4j-core/src/main/java/org/df4j/core/connector/ScalarInput.java:17-19 | a new blocked pin of the node, empty |
| Connector.ScalarInput.Current | df4j-core/src/main/java/org/df4j/core/connector/ScalarInput.java:21-26 | throws exactly when an error is stored, and then an `IllegalStateException` wrapping it; an input that is not done reads as no token; a token read means the input is done, so `hasNext()` is false |
| Connector.ScalarInput.OnNext | df4j-core/src/main/java/org/df4j/core/connector/ScalarInput.java:36-46 | `null` is an `IllegalArgumentException`, a token when a token or error is held an `IllegalStateException`; otherwise the token is stored, `current()` returns it, and the pin turned on (both directions) |
| Connector.ScalarInput.OnError | df4j-core/src/main/java/org/df4j/core/connector/ScalarInput.java:48-54 | refused with `IllegalStateException` when done; otherwise stores the error and leaves the pin alone: a real error makes the input done and `current()` throw, a `null` error leaves it not done |
| Connector.ScalarInput.OnComplete | df4j-core/src/main/java/org/df4j/core/connector/ScalarInput.java:56-62 | no change when done; otherwise the pin is turned on with no token |
| Connector.ScalarInput.Purge | df4j-core/src/main/java/org/df4j/core/connector/ScalarInput.java:64-68 | drops the token, so without an error `current()` reads as no token; the error and the pushback flag stay |
| Connector.ScalarInput.Next | df4j-core/src/main/java/org/df4j/core/connector/ScalarInput.java:75-91 | a stored error is a `RuntimeException`, an empty input an `IllegalStateException`; otherwise the token is returned, and consumed with the pin turned off unless a pushback was pending, which only resets the flag |
| Connector.StreamFeeder.constructor | df4j-core/src/main/java/org/df4j/core/connector/StreamFeeder.java:25-30 | an open lock, an empty buffer of the given capacity, no subscriber |
| Connector.StreamFeeder.Default | df4j-core/src/main/java/org/df4j/core/connector/StreamFeeder.java:32-34 | the same with the default capacity 16 |
| Connector.StreamFeeder.Subscribe | df4j-core/src/main/java/org/df4j/core/connector/StreamFeeder.java:40-61 | the oldest buffered token goes to the subscriber and the lock opens (also after completion); an empty live feeder queues it at the tail; an empty done feeder answers `onComplete` or `onError`; buffer and waiting list are never both non-empty, and tokens leave in arrival order |
| Connector.StreamFeeder.UnSubscribe | df4j-core/src/main/java/org/df4j/core/connector/StreamFeeder.java:63-65 | drops the first occurrence; a `NullPointerException` once done |
| Connector.StreamFeeder.OnNext | df4j-core/src/main/java/org/df4j/core/connector/StreamFeeder.java:67-90 | `null` is a `NullPointerException`, a done feeder an `IllegalStateException`; a waiting head subscriber gets the token and moves to the tail; otherwise the token is appended and the lock closes exactly when the buffer reaches capacity; a full buffer is an `IllegalStateException`, so the buffer never exceeds capacity |
| Connector.StreamFeeder.OnError | df4j-core/src/main/java/org/df4j/core/connector/StreamFeeder.java:92-107 | one-shot; stores the error, `null` included, and notifies each waiting subscriber once, in order, with that same error |
| Connector.StreamFeeder.OnComplete | df4j-core/src/main/java/org/df4j/core/connector/StreamFeeder.java:109-122 | one-shot; notifies each waiting subscriber once, in order |
| Connector.StreamFeeder.Poll | df4j-core/src/main/java/org/df4j/core/connector/StreamFeeder.java:124-130 | removes and returns the oldest buffered token, `None` when empty |
| MessageScalar.ConstInput.constructor | df4j-core/src/main/java/org/df4j/core/boundconnector/messagescalar/ConstInput.java:26-28 | a new blocked pin, empty |
| MessageScalar.ConstInput.OnSubscribe | df4j-core/src/main/java/org/df4j/core/boundconnector/messagescalar/ConstInput.java:30-37 | stores the subscription, or cancels it upstream when a close was requested |
| MessageScalar.ConstInput.Complete | df4j-core/src/main/java/org/df4j/core/boundconnector/messagescalar/ConstInput.java:66-77 | `null` is an `IllegalArgumentException`, a stored error an `IllegalStateException`; otherwise the value is stored, the pin turned on, `current()` returns it and the answer is true |
| MessageScalar.ConstInput.CompleteExceptionally | df4j-core/src/main/java/org/df4j/core/boundconnector/messagescalar/ConstInput.java:79-86 | a stored error is an `IllegalStateException`; otherwise the error is stored without touching the pin and the answer is true: a real error makes the input done and `current()` throw, a `null` error leaves it not done with its value |
| MessageScalar.ConstInput.Cancel | df4j-core/src/main/java/org/df4j/core/boundconnector/messagescalar/ConstInput.java:88-97 | without a subscription returns `cancelled` and changes nothing; otherwise drops it, sets `cancelled` and returns the upstream answer |
| MessageScalar.ScalarInput.Pushback | df4j-core/src/main/java/org/df4j/core/boundconnector/messagescalar/ScalarInput.java:24-29 | arms the flag; an `IllegalStateException` when already armed |
| MessageScalar.ScalarInput.constructor | df4j-core/src/main/java/org/df4j/core/boundconnector/messagescalar/ScalarInput.java:17-20 | wraps its registered input with the pushback flag clear |
| MessageScalar.ScalarInput.PushbackValue | df4j-core/src/main/java/org/df4j/core/boundconnector/messagescalar/ScalarInput.java:31-37 | arms the flag and replaces the held value; an `IllegalStateException`, without replacing, when already armed |
| MessageScalar.ScalarInput.Next | df4j-core/src/main/java/org/df4j/core/boundconnector/messagescalar/ScalarInput.java:45-61 | a stored error is a `RuntimeException`, no value an `IllegalStateException`; otherwise returns the value, and with no pushback clears it and turns the pin off, with pushback keeps both and resets the flag |
| MessageScalar.PushbackThenNextTwice | df4j-core/src/main/java/org/df4j/core/boundconnector/messagescalar/ScalarInput.java:45-61 | after `pushback()`, two `next()` calls return the same value, and only the second consumes it |
| Asyncproc.ScalarInput.constructor | df4j-core/src/main/java/org/df4j/core/asyncproc/ScalarInput.java:15-18 | a new blocked pin of the task, empty |
| Asyncproc.ScalarInput.OnSubscribe | df4j-core/src/main/java/org/df4j/core/asyncproc/ScalarInput.java:24-27 | stores the subscription and nothing else |
| Asyncproc.ScalarInput.Complete | df4j-core/src/main/java/org/df4j/core/asyncproc/ScalarInput.java:40 | marks the parameter completed and turns its pin on, keeping the token and error |
| Asyncproc.ScalarInput.OnComplete | df4j-core/src/main/java/org/df4j/core/asyncproc/ScalarInput.java:29-41 | ignored once completed; a held value is an `IllegalStateException`; otherwise the message (null allowed) is stored and the param completed, turning its pin on |
| Asyncproc.ScalarInput.OnError | df4j-core/src/main/java/org/df4j/core/asyncproc/ScalarInput.java:43-55 | `null` is an `IllegalArgumentException`; ignored once completed; otherwise the error is stored, `getCompletionException` returns it, and the param is completed |
| Asyncproc.AllOf.Empty | df4j-core/src/main/java/org/df4j/core/asyncproc/AllOf.java:10-11 | no gate and a pending result |
| Asyncproc.AllOf.constructor | df4j-core/src/main/java/org/df4j/core/asyncproc/AllOf.java:13-17 | one blocked `Enter` gate per source, in order |
| Asyncproc.AllOf.RegisterAsyncResult | df4j-core/src/main/java/org/df4j/core/asyncproc/AllOf.java:24-26 | one new blocked `Enter` gate subscribed to the source |
| Asyncproc.AllOf.RegisterAsyncResults | df4j-core/src/main/java/org/df4j/core/asyncproc/AllOf.java:28-32 | one new blocked gate per source, in order, older gates untouched |
| Asyncproc.AllOf.RegisterAsyncDaemon | df4j-core/src/main/java/org/df4j/core/asyncproc/AllOf.java:40-42 | adds no gate |
| Asyncproc.AllOf.Fire | df4j-core/src/main/java/org/df4j/core/asyncproc/AllOf.java:44-47 | completes a pending result with `null` |
| Asyncproc.AllOf.PostGlobalFailure | df4j-core/src/main/java/org/df4j/core/asyncproc/AllOf.java:49-51 | fails a pending result; a done result is kept |
| Asyncproc.AllOf.EnterOnSubscribe | df4j-core/src/main/java/org/df4j/core/asyncproc/AllOf.java:56-59 | stores the subscription of that gate only |
| Asyncproc.AllOf.EnterOnNext | df4j-core/src/main/java/org/df4j/core/asyncproc/AllOf.java:61-64 | opens the gate; the last blocked gate to open completes a pending result with `null` |
| Asyncproc.AllOf.EnterOnError | df4j-core/src/main/java/org/df4j/core/asyncproc/AllOf.java:66-69 | a source failure fails a pending result |
| Asyncproc.AllOf.DaemonOnNext | df4j-core/src/main/java/org/df4j/core/asyncproc/AllOf.java:74-75 | a daemon token changes nothing |
| Asyncproc.AnyOf.constructor | df4j-core/src/main/java/org/df4j/core/asyncproc/AnyOf.java:8-12 | registers with every source, in order |
| Asyncproc.AnyOf.Accept | df4j-core/src/main/java/org/df4j/core/asyncproc/AnyOf.java:15-24 | ignored once done; a null exception completes with the value, a non-null one fails with it |
| NodeExt.AllOf.constructor | df4j-core/src/main/java/org/df4j/core/node/ext/AllOf.java:12-16 | one blocked `Enter` lock per source, in order |
| NodeExt.AllOf.RegisterAsyncResult | df4j-core/src/main/java/org/df4j/core/node/ext/AllOf.java:23-25 | one new blocked `Enter` lock |
| NodeExt.AllOf.RegisterAsyncResults | df4j-core/src/main/java/org/df4j/core/node/ext/AllOf.java:27-31 | one new blocked lock per source, in order |
| NodeExt.AllOf.RegisterAsyncDaemon | df4j-core/src/main/java/org/df4j/core/node/ext/AllOf.java:39-41 | adds no lock |
| NodeExt.AllOf.Fire | df4j-core/src/main/java/org/df4j/core/node/ext/AllOf.java:43-46 | completes a pending result with `null` |
| NodeExt.AllOf.PostGlobalFailure | df4j-core/src/main/java/org/df4j/core/node/ext/AllOf.java:48-50 | fails a pending result, from an `Enter` or a `DaemonEnter` |
| NodeExt.AllOf.EnterOnNext | df4j-core/src/main/java/org/df4j/core/node/ext/AllOf.java:54-57 | opens the lock; the last blocked lock to open completes a pending result with `null` |
| NodeExt.AllOf.DaemonOnNext | df4j-core/src/main/java/org/df4j/core/node/ext/AllOf.java:67-68 | a daemon token changes nothing |
| ActionNode.AsyncAction.constructor | df4j-core/src/main/java/org/df4j/core/node/AsyncAction.java:19-23 | the control lock starts blocked, so nothing fires before `start` |
| ActionNode.AsyncAction.Start | df4j-core/src/main/java/org/df4j/core/node/AsyncAction.java:55-61 | after `stop` an `IllegalStateException` with no change; otherwise resets `argsPurged` and opens the control lock, so `isStarted()` holds |
| ActionNode.AsyncAction.AddParam | df4j-core/src/main/java/org/df4j/core/connector/ScalarInput.java:17-19 | an input built on the node joins its parameter list at the end |
| ActionNode.AsyncAction.BlockStarted | df4j-core/src/main/java/org/df4j/core/node/AsyncAction.java:68-70 | closes the control lock |
| ActionNode.AsyncAction.Stop | df4j-core/src/main/java/org/df4j/core/node/AsyncAction.java:72-77 | sets `stopped` and completes the result with `null` only when it is still pending; a repeat changes nothing more |
| ActionNode.AsyncAction.PurgeParam | df4j-core/src/main/java/org/df4j/core/node/AsyncAction.java:92 | `purge()` of one parameter: its token is gone; every other parameter keeps its token, and no parameter's error or pushback flag changes |
| ActionNode.AsyncAction.ExtractArguments | df4j-core/src/main/java/org/df4j/core/node/AsyncAction.java:83-97 | each parameter's `current()` in order, each purged, `argsPurged` set (both directions of "no parameter holds an error"); on an error, the earlier parameters are purged and the rest untouched |
| ActionNode.AsyncAction.PurgeAll | df4j-core/src/main/java/org/df4j/core/node/AsyncAction.java:99-113 | parameters are purged only when `extractArguments` has not done it this cycle; `argsPurged` ends set |
| ActionNode.AsyncAction.Invoke | df4j-core/src/main/java/org/df4j/core/node/AsyncAction.java:129-137 | closes the control lock and touches no other pin; then either applies the body to every token in order and purges every parameter, or, when a parameter holds an error, fails with an `IllegalStateException` without calling the body, having purged exactly the parameters before it |
| ActionNode.AsyncAction.Fail | df4j-core/src/main/java/org/df4j/core/node/AsyncAction.java:133-136 | fails a pending result with the throwable, leaves a completed one, and stops the node; the parameters are untouched |
| ActionNode.AsyncAction.Run | df4j-core/src/main/java/org/df4j/core/node/AsyncAction.java:128-137 | the control lock is closed first and no other pin changes; with no stored error the action gets every token in order and every parameter is purged; a failure fails a pending result and stops the node, so a later `start` is refused |
| Actors.Actor.constructor | df4j-core/src/main/java/org/df4j/core/actor/Actor.java:15 | the control lock starts blocked |
| Actors.Actor.Start | df4j-core/src/main/java/org/df4j/core/actor/Actor.java:29-34 | after `stop` an `IllegalStateException`; otherwise opens the control lock |
| Actors.Actor.Stop | df4j-core/src/main/java/org/df4j/core/actor/Actor.java:45-50 | sets `stopped`; completes the result only when pending |
| Actors.Actor.Run | df4j-core/src/main/java/org/df4j/core/actor/Actor.java:54-67 | the control lock closes before the action; after normal completion a non-stopped actor purges and restarts, reopening the control lock and firing exactly when no other pin is blocked; otherwise the control lock stays closed; one that stopped itself does neither; a normal end leaves the result alone unless it stopped itself; a failure fails the result and stops the actor |
| TaskMessageScalar.AsyncSupplier.CompleteResult | df4j-core/src/main/java/org/df4j/core/tasknode/messagescalar/AsyncSupplier.java:53-55 | true exactly when this call completed the result |
| TaskMessageScalar.AsyncSupplier.constructor | df4j-core/src/main/java/org/df4j/core/tasknode/messagescalar/AsyncSupplier.java:29-41 | a blocked control lock only, a pending result, not stopped |
| TaskMessageScalar.AsyncSupplier.CompleteResultExceptionally | df4j-core/src/main/java/org/df4j/core/tasknode/messagescalar/AsyncSupplier.java:57-59 | true exactly when this call failed the result |
| TaskMessageScalar.AsyncSupplier.Cancel | df4j-core/src/main/java/org/df4j/core/tasknode/messagescalar/AsyncSupplier.java:61-64 | cancels a pending result and nothing else; the answer is whether the result is now cancelled |
| TaskMessageScalar.AsyncSupplier.Stop | df4j-core/src/main/java/org/df4j/core/tasknode/messagescalar/AsyncSupplier.java:95 | sets `stopped`; completes the result with `null` only when pending |
| TaskMessageScalar.AsyncSupplier.Run | df4j-core/src/main/java/org/df4j/core/tasknode/messagescalar/AsyncSupplier.java:86-96 | closes the control lock, completes a pending result with the action's value or fails it with the action's error, and always stops, so a supplier completes at most once |
| TaskMessageScalar.AllOf.constructor | df4j-core/src/main/java/org/df4j/core/tasknode/messagescalar/AllOf.java:9-16 | a blocked control lock, then one result slot and one blocked `Enter` lock per source, source `k` at pin `k + 1`; not started |
| TaskMessageScalar.AllOf.Start | df4j-core/src/main/java/org/df4j/core/node/AsyncAction.java:55-61 | opens the control lock; when it was the last blocked lock a pending result completes with the results, otherwise the result is unchanged |
| TaskMessageScalar.AllOf.Fire | df4j-core/src/main/java/org/df4j/core/tasknode/messagescalar/AllOf.java:18-21 | completes a pending result with the whole results array |
| TaskMessageScalar.AllOf.EnterPost | df4j-core/src/main/java/org/df4j/core/tasknode/messagescalar/AllOf.java:30-34 | stores the value in its own slot and turns its lock on; the last lock to open, the control lock included, completes a pending result with the results; otherwise the result is unchanged; a repeat post does not fire again |
| TaskMessageScalar.AllOf.EnterPostFailure | df4j-core/src/main/java/org/df4j/core/tasknode/messagescalar/AllOf.java:36-43 | fails the result only when still pending: the first failure wins |
| TaskMessageScalar.AllOf.CompletedOnlyWhenAllPosted | df4j-core/src/main/java/org/df4j/core/tasknode/messagescalar/AllOf.java:18-34 | a normally completed result means the node was started and every source has posted |
| Promises.Promise.Complete | df4j-core/src/main/java/org/df4j/core/connectornode/CompletablePromise.java:16-19 | true exactly when the promise was pending; only then it holds the value: completed at most once |
| Promises.Promise.constructor | df4j-core/src/main/java/org/df4j/core/connectornode/CompletablePromise.java:14 | a new promise is pending |
| Promises.Promise.CompleteExceptionally | df4j-core/src/main/java/org/df4j/core/connectornode/CompletablePromise.java:21-24 | the same one-shot rule with a failure |
| Promises.Promise.Cancel | df4j-core/src/main/java/org/df4j/core/tasknode/messagescalar/AsyncSupplier.java:61-64 | cancels only a pending promise; answers whether it is cancelled now |
| Asynchproc.PickPoint.constructor | df4j-core/src/main/java/org/df4j/core/asynchproc/PickPoint.java:20-23 | no token, no request, not completed |
| Asynchproc.PickPoint.OnNext | df4j-core/src/main/java/org/df4j/core/asynchproc/PickPoint.java:29-39 | after completion an `IllegalStateException`; the oldest request receives the token and leaves the queue, or with none the token joins the end of `resources` |
| Asynchproc.PickPoint.OnComplete | df4j-core/src/main/java/org/df4j/core/asynchproc/PickPoint.java:41-51 | idempotent; the first call signals `onComplete` to every pending request once, in queue order |
| Asynchproc.PickPoint.Subscribe | df4j-core/src/main/java/org/df4j/core/asynchproc/PickPoint.java:53-63 | after completion an `IllegalStateException`, even with tokens left; otherwise takes the oldest token or queues the request |
| Asynchproc.PickPoint.Take | df4j-core/src/main/java/org/df4j/core/asynchproc/PickPoint.java:65-78 | with tokens and no request, removes and returns the oldest token; otherwise subscribes the waiting promise |
| Asynchproc.TokensLeaveInArrivalOrder | df4j-core/src/main/java/org/df4j/core/asynchproc/PickPoint.java:34-38 | what has left is a prefix of what arrived, and what waits is the rest |
| MessageStream.Subscription.Post | df4j-core/src/main/java/org/df4j/core/boundconnector/messagestream/StreamOutput.java:73-75 | passes the item to the subscriber; a dropped subscriber is a `NullPointerException` (both directions) |
| MessageStream.Subscription.constructor | df4j-core/src/main/java/org/df4j/core/boundconnector/messagestream/StreamOutput.java:69-71 | holds its subscriber, not closed |
| MessageStream.Subscription.Complete | df4j-core/src/main/java/org/df4j/core/boundconnector/messagestream/StreamOutput.java:86-92 | forwards completion once and drops the subscriber; a repeat makes no call |
| MessageStream.PostEach | df4j-core/src/main/java/org/df4j/core/boundconnector/messagestream/StreamOutput.java:47-53 | the calls of the broadcast `post` loop: each visited subscriber gets the item, in order, up to the first dropped one, which stops the loop with a `NullPointerException` |
| MessageStream.CompleteEach | df4j-core/src/main/java/org/df4j/core/boundconnector/messagestream/StreamOutput.java:60-63 | each still-attached subscriber gets `onComplete` once, in order, and every subscription drops its subscriber |
| MessageStream.StreamOutput.constructor | df4j-core/src/main/java/org/df4j/core/boundconnector/messagestream/StreamOutput.java:19-22 | an open lock and an empty set |
| MessageStream.StreamOutput.Subscribe | df4j-core/src/main/java/org/df4j/core/boundconnector/messagestream/StreamOutput.java:24-29 | a fresh subscription joins the set and is returned; a `NullPointerException` once closed |
| MessageStream.StreamOutput.Close | df4j-core/src/main/java/org/df4j/core/boundconnector/messagestream/StreamOutput.java:31-34 | drops the set and closes the lock, so `closed()` holds |
| MessageStream.StreamOutput.Post | df4j-core/src/main/java/org/df4j/core/boundconnector/messagestream/StreamOutput.java:47-53 | `null` is a `NullPointerException`; after `close` no call; otherwise the broadcast above |
| MessageStream.StreamOutput.Complete | df4j-core/src/main/java/org/df4j/core/boundconnector/messagestream/StreamOutput.java:60-63 | after `close` no call; otherwise every attached subscriber completes once |
| MessageStream.StreamOutput.Cancel | df4j-core/src/main/java/org/df4j/core/boundconnector/messagestream/StreamOutput.java:100-108 | idempotent; removes the subscription from the set; an open set is required, else a `NullPointerException` |
| MessageStream.StreamOutput.PostFailureTo | df4j-core/src/main/java/org/df4j/core/boundconnector/messagestream/StreamOutput.java:77-80 | forwards the error to that subscriber, then cancels it |
| ReactiveStream.Subscription.constructor | df4j-core/src/main/java/org/df4j/core/boundconnector/reactivestream/ReactiveOutput.java:71-77 | holds its subscriber and a fresh permit, open |
| ReactiveStream.Subscription.Post | df4j-core/src/main/java/org/df4j/core/boundconnector/reactivestream/ReactiveOutput.java:79-84 | a completed subscription is an `IllegalStateException`; otherwise one `onNext` to its subscriber |
| ReactiveStream.Subscription.Complete | df4j-core/src/main/java/org/df4j/core/boundconnector/reactivestream/ReactiveOutput.java:105-111 | forwards once and marks it completed; a repeat is a no-op |
| ReactiveStream.PostEach | df4j-core/src/main/java/org/df4j/core/boundconnector/reactivestream/ReactiveOutput.java:53-56 | each visited subscriber gets the item, in order, up to the first completed subscription, which stops the loop with an `IllegalStateException` |
| ReactiveStream.CompleteEach | df4j-core/src/main/java/org/df4j/core/boundconnector/reactivestream/ReactiveOutput.java:58-60 | each still-attached subscriber gets `onComplete` once, in order |
| ReactiveStream.ReactiveOutput.constructor | df4j-core/src/main/java/org/df4j/core/boundconnector/reactivestream/ReactiveOutput.java:24-27 | an open lock and an empty set |
| ReactiveStream.ReactiveOutput.Subscribe | df4j-core/src/main/java/org/df4j/core/boundconnector/reactivestream/ReactiveOutput.java:29-35 | registers the permit lock blocked, then a `null` subscriber or a closed output is a `NullPointerException`; otherwise the subscription joins the set and is handed to `onSubscribe` |
| ReactiveStream.ReactiveOutput.Close | df4j-core/src/main/java/org/df4j/core/boundconnector/reactivestream/ReactiveOutput.java:37-40 | drops the set and closes the lock |
| ReactiveStream.ReactiveOutput.Post | df4j-core/src/main/java/org/df4j/core/boundconnector/reactivestream/ReactiveOutput.java:53-56 | after `close` no call; otherwise the broadcast above; permit counters untouched |
| ReactiveStream.ReactiveOutput.Complete | df4j-core/src/main/java/org/df4j/core/boundconnector/reactivestream/ReactiveOutput.java:58-60 | after `close` no call; otherwise every attached subscriber completes once |
| ReactiveStream.ReactiveOutput.Cancel | df4j-core/src/main/java/org/df4j/core/boundconnector/reactivestream/ReactiveOutput.java:120-128 | a no-op on a completed subscription; otherwise marks it completed, removes it from the set and unregisters its permit lock: the permit pin opens, firing the node exactly when it was the last blocked pin, and leaves `locks`, with `asyncParams` kept; once the set is gone, an NPE with the node untouched |
| ReactiveStream.ReactiveOutput.PostFailureTo | df4j-core/src/main/java/org/df4j/core/boundconnector/reactivestream/ReactiveOutput.java:86-92 | a completed subscription is an `IllegalStateException`; otherwise forwards the error, then cancels, so it counts as completed, with the node changed exactly as `Cancel` changes it |
| ReactiveStream.ReactiveOutput.Request | df4j-core/src/main/java/org/df4j/core/boundconnector/reactivestream/ReactiveOutput.java:130-133 | releases n permits on that subscription's counter |
| Scenarios.SquareNode | df4j-core/src/test/java/org/df4j/core/tutorial/basic/SumSquareTest.java:17-26 | a square node fed `v` fires exactly once and completes its result with `v * v` |
| Scenarios.SumNode | df4j-core/src/test/java/org/df4j/core/tutorial/basic/SumSquareTest.java:28-39 | a sum node fed `x` and `y` fires exactly once, on the second input, and completes with `x + y` |
| Scenarios.SumSquare | df4j-core/src/test/java/org/df4j/core/tutorial/basic/SumSquareTest.java:41-56 | square nodes fed 3 and 4, feeding a sum node, fire once each, and the sum result is 25 |

## Left out

- Concurrency: `synchronized`, atomics and `volatile` are dropped. Every operation is modelled as atomic and sequential.
- Executors: how a node is handed to an executor is not modelled. `fire()` is one increment of the ghost counter `fired`.
- Blocking waits: the blocking halves of `PickPoint.take`/`poll` (`future.get()`) are left out. `Asynchproc.PickPoint.Take` stops where the caller would start waiting.
- `PickPoint`: `null` tokens are not modelled.
- `MessageScalar.ConstInput.constructor`: the class extends `AsyncProc.AsyncParam`, which `tasknode/AsyncProc.java` does not declare. The model gives it only the `BaseLock` part of construction: a new pin, blocked and counted in `blockedPinCount` (`AsyncProc.java:145-150`). It models no `register()`, so the input joins neither `locks` nor `asyncParams` and is not refused after start, unlike the tasknode `ConstInput` (`AsyncProc.java:322-331`). The node's `asyncParams` holds tasknode `ConstInput`s only.
- `ReactiveStream.ReactiveOutput.Post`: a `null` item is not modelled. The Java `post` does not check its item (`ReactiveOutput.java:54-56`) and would hand `null` to every subscriber, while the model's item is always a value. The same holds for `ReactiveStream.Subscription.Post` and `ReactiveStream.PostEach`, which it calls.
- Callbacks made during registration: a source that is already complete calls back inside the Java registering call (`whenComplete` runs the action at once; a `Feeder` holding its token delivers it inside `subscribe`). The model splits this into the registration, which leaves every new gate blocked and the result pending, followed by a separate call of the callback. The lines below name the members this concerns.
- `Scalar.AnyOf.constructor`: ends with a pending result; an already-completed source's `accept` is the next `Scalar.AnyOf.Accept` call.
- `Asyncproc.AnyOf.constructor`: ends with a pending result; an already-completed source's `accept` is the next `Asyncproc.AnyOf.Accept` call.
- `NodeExt.AllOf.constructor`: ends with every `Enter` lock blocked; a source already holding its token opens its lock on the next `NodeExt.AllOf.EnterOnNext` call.
- `NodeExt.AllOf.RegisterAsyncResult`: ends with the new lock blocked; a ready source opens it on the next `NodeExt.AllOf.EnterOnNext` call.
- `NodeExt.AllOf.RegisterAsyncResults`: the same as `RegisterAsyncResult`, for each source.
- `Asyncproc.AllOf.constructor`: ends with every gate blocked; a source that has already completed opens its gate on the next `Asyncproc.AllOf.EnterOnNext` call.
- `Asyncproc.AllOf.RegisterAsyncResult`: ends with the new gate blocked; a completed source opens it on the next `Asyncproc.AllOf.EnterOnNext` call.
- `Asyncproc.AllOf.RegisterAsyncResults`: the same as `RegisterAsyncResult`, for each source.
- `TaskMessageScalar.AllOf.constructor`: ends with every `Enter` lock blocked; a `SubscriberPromise` that is already complete posts through the next `TaskMessageScalar.AllOf.EnterPost` or `EnterPostFailure` call.
- NIO networking, timers, floating-point tests and Reactive Streams conformance are not part of this model.
- `StreamOutput.postFailure` (the broadcast form) is left out. It cancels subscriptions, and so removes them from the `HashSet`, while iterating that set. `ReactiveOutput`'s broadcast `postFailure` is left out for the same reason. The single-subscription `postFailure` of each class is modelled.
- `HashSet` iteration order: the order is a parameter, constrained to enumerate the set. The model does not fix which order Java picks.
- `ReactiveStream.ReactiveOutput.Subscribe`: the source returns the subscriber, but the model returns the new subscription. The `onSubscribe` call is recorded in the ghost `handshakes`.
- `ReactiveStream.ReactiveOutput.Request`: requires the subscription to still be in the set. A `request` after `cancel` (on a permit lock already unregistered) is not modelled.
- `request(n)` of `StreamOutput`'s subscription and `purge()` of `ReactiveOutput`'s subscription do nothing in the source. In the model they are methods with an empty body and an empty frame, and carry no contract.
- `tasknode/AsyncProc.java` `purgeAll`: every lock and parameter `purge()` there is the no-op of `BaseLock`, so `purgeAll` changes nothing and is not a member.
- `Scalar.ScalarFeeder.Poll` and `TaskNode.ConstInput.Current` read one field and carry no contract of their own. `CollectTokens` states `current()`.
- One-field queries carry no row of their own: `Connector.ScalarInput.HasNext`/`IsDone`, `Connector.StreamFeeder.IsDone`, `MessageScalar.ConstInput.Current`/`IsDone`, `MessageScalar.ScalarInput.HasNext`, `Asyncproc.ScalarInput.GetCompletionException`, `Promises.Promise.IsDone`/`IsCancelled` `TaskMessageScalar.AsyncSupplier.IsDone`/`IsCancelled`, `ActionNode.AsyncAction.IsStarted`, `Actors.Actor.IsStarted`, `TaskMessageScalar.AllOf.IsStarted`, `MessageStream.StreamOutput.Closed`, `ReactiveStream.ReactiveOutput.Closed`, `Asynchproc.PickPoint.IsCompleted` and `ReactiveStream.Subscription.IsCompleted`. The operations that use them state their meaning.
- `Scenarios.SquareRun` and `Scenarios.SumRun` model `Square.run()` and `Sum.run()` of `testAP` (`SumSquareTest.java:21-25`, `33-38`). They carry no contract of their own: `Scenarios.SquareNode` and `Scenarios.SumNode` state what they compute. The other tests of that file, `testDFF` and `testCF`, are not part of this model.
- `BaseLock.purge()` is the no-op of `tasknode/AsyncProc.java:199-203`. The calls to `super.purge()` in `connector/ScalarInput.java:66` and to `purge()` in `connector/StreamFeeder.java:59` therefore change nothing in the model.
- `Actors.Actor.Run`: the ghost counter `purges` stands in for `purgeAll()` of the `asynchproc.AsyncProc` base, which is not part of this model. The model counts the calls and does not say what they clear.
- `Promises.Promise.CompleteExceptionally`: a `null` throwable, on which `CompletableFuture.completeExceptionally` throws `NullPointerException`, is not modelled. Its throwable is never `null`, and so is that of the members that pass theirs on to it: `Asyncproc.AllOf.EnterOnError`, `NodeExt.AllOf.PostGlobalFailure` and the `Fail`/`PostFailure` paths of the nodes.
- `boundconnector.permitstream.Semafor`, which `ReactiveOutput` imports, is not part of this model. Its permit is modelled by `Scalar.Semafor`.
- `ScalarSubscriber` is not part of this model, so `SumSquareTest`'s one-token `onNext(v)` is modelled as the scalar `onComplete(v)`.
- `asyncproc.AsyncProc` and `Transition.Param` are not part of this model. In `Scenarios`, a node fires when its last parameter completes, with no control lock.
- `AsyncResult.subscribe` is not part of this model. In `Scenarios`, a result reaches the subscribed input by direct delivery.
- `Port.accept` is folded into `AnyOf.Accept` and into the `Signal` datatype.
- `Scenarios.SquareRun`: does not model Java `int` overflow of `arg*arg`, because the values in the test are small.
- `Scalar.Semafor.Release`: does not model Java `long` wrap-around of the counter, because unbounded integers are used.
- `TaskNode.AsyncProc.NewConstInput`: `isStarted()` is abstract in `tasknode/AsyncProc.java`, so its answer is the parameter `started`.
- `ActionNode.AsyncAction.Run`: reflection and `Invoker` dispatch are a supplied body function.
- `TaskMessageScalar.AsyncSupplier.Stop`: the `tasknode.AsyncAction` base class of `AsyncSupplier` is not part of this model. Its control lock, `stopped` flag and `stop()` follow `node.AsyncAction`. `TaskMessageScalar.AllOf` has the same control lock at pin 0, and its `Start` leaves out the `stopped` check.
- `NodeExt.AllOf` and `Asyncproc.AllOf`: the `node.ext.AsyncSupplier` and `asyncproc.ext.AsyncSupplier` bases are not part of this model, so these two are modelled without a control lock and complete when the last source posts.
