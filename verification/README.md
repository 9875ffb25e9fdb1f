# CombineAsyncually core in Dafny

CombineAsyncually bridges Combine publishers and Swift `async` code in both
directions. This project models the three small state machines the bridge is
built from:

- `Subscribers.Await` (module `Await`, `await.dfy`) is the one-shot subscriber
  behind `get()`. It subscribes upstream, asks for one element, and hands the
  first value, the upstream failure, or `upstreamDidNotEmitValue` to a
  continuation, at most once when its handlers are serialised.
- `Task.Publisher` (module `TaskPublisher`, `task_publisher.dfy`) is a cold
  publisher for a non-throwing `async` closure. It starts the closure on the
  first positive demand and sends its value followed by `.finished`.
- `Task.ThrowingPublisher` (module `ThrowingTaskPublisher`,
  `throwing_task_publisher.dfy`) is the same for a throwing closure. A thrown
  error is sent as `.failure(error)` alone. Its request, cancel and value
  handlers are the Swift code of `Task.Publisher` again, so the module reuses
  them and adds `receive(error:)`.

`combine.dfy` (module `Combine`) holds the shared vocabulary: `Demand`,
`Completion`, `Result`, Swift's `Error` as `Error<E>`, and the `Transition`
record. `pipeline.dfy` (module `Pipeline`) wires the bridge to the two
publishers the way `get()` does.

The model treats every handler as one atomic step: a pure function from a state
to a `Transition`. This is an assumption, not a consequence of the source's
locking. `continue(with:)` takes no lock. `cancel()` holds `upstreamLock` while
`receive(_:)` and `receive(completion:)` hold `emitLock`, so they do not exclude
each other, and `cleanup()` runs outside the lock in `cancel()` and
`receive(completion:)`. The task publishers split the same way: `cancel()` holds
`handleLock`, `receive` holds `downstreamLock`. The trace lemmas therefore hold
for callers that serialise their calls on one object. `Await.CancelLocked` and
`Await.CompletionLocked` are the locked parts of the two bridge handlers, and
two lemmas exhibit what overlapping them does
(`Await.CancelOvertakenByValue`, `Await.CompletionOvertakenByValue`).
That record holds the next state and the ordered list of effects the step
produced: calls on the continuation, on the upstream subscription, on the task
handle, or on the downstream subscriber. `Run` folds a sequence of events and
concatenates the effects. Every trace property is a lemma over arbitrary event
sequences. This includes sequences a well-behaved collaborator would never
produce: repeated values, values after completion, and task results arriving
after cancellation or without a started task.

External things become parameters:

- The continuation closure and the upstream subscription are identities (`nat`).
- The task handle returned by `detach` is an opaque token.
- A closure's return or throw is an event carrying the value or the error.
- The downstream subscriber is an identity `D`.

`Error<E>` keeps the bridge's own `upstreamDidNotEmitValue` apart from any
other error `E`. This makes "the upstream failure is passed through unchanged"
an equality.

Facts the model follows from the code:

- `receive(completion:)` does not set `didEmitValue`. It runs `cleanup()` even
  on the path where its guard returns early.
- `cancel()` cancels only a subscription that has already arrived. A
  subscription received after `cancel()` is stored and asked for one element,
  and nothing cancels it (`Await.SubscriptionAfterCancelIsKept`).
- `continue(with:)` may be called again. The second call replaces the held
  continuation, so "at most once" is proved per continuation.
- `cancel()` leaves no subscription and no continuation behind, and nothing
  stops a later `continue(with:)`. A continuation registered after `cancel()`
  re-arms the bridge and is resumed by the next value or completion, unless a
  value was emitted before (`Await.ContinueAfterCancelRearms`). `get()` meets
  this order when its cancellation handler runs before its operation.
- `didEmitValue` is never reset, so after the first value nothing is resumed
  again, even for a new continuation (`Await.EmittedResumesNothing`).
- A wait cancelled after subscribing is never resumed by anything that arrives
  later, unless a new continuation is registered: `cancel()` clears the
  continuation without invoking it (`Await.CancelledWaitNeverResumes`). For
  `get()` this means the awaiting task stays suspended after cancellation, just
  as it does when the publisher never emits.
- The first value drops the upstream subscription in `cleanup()` without
  cancelling it: `Await.ReceiveInput` emits only the `Resume`, and no
  `CancelSubscription`.
- A task publisher's `cleanup()` also forgets the handle. A positive request
  after delivery or cancel therefore starts the closure again, but its result
  reaches nobody.

## Model

| member | source | states |
|---|---|---|
| Await.Continue | Sources/CombineAsyncually/Subscriber+Await.swift:36-39 | `continue(with:)` holds the new continuation, leaves the subscription and `didEmitValue` alone, and only subscribes upstream |
| Await.CancelLocked | Sources/CombineAsyncually/Subscriber+Await.swift:42-44 | the part of `cancel()` under `upstreamLock` cancels the held subscription exactly when one is held and changes no field |
| Await.Cancel | Sources/CombineAsyncually/Subscriber+Await.swift:41-51 | `cancel()` cancels the held subscription exactly when one is held, drops subscription and continuation (`Await.Cleanup` is `cleanup()`, lines 48-51), and never resumes anyone |
| Await.CompletionError | Sources/CombineAsyncually/Subscriber+Await.swift:55-57 | `.finished` maps to `upstreamDidNotEmitValue`; `.failure(e)` maps to exactly `e` |
| Await.ReceiveSubscription | Sources/CombineAsyncually/Subscriber+Await.swift:70-75 | a received subscription is stored and asked for exactly `.max(1)`; the emission state is untouched |
| Await.ReceiveInput | Sources/CombineAsyncually/Subscriber+Await.swift:77-88 | the first value resumes the held continuation with `.success(value)`, sets `didEmitValue` and clears subscription and continuation; a later value changes nothing; the demand returned is always `.none` |
| Await.CompletionLocked | Sources/CombineAsyncually/Subscriber+Await.swift:91-102 | the part of `receive(completion:)` under `emitLock` resumes a held continuation with the mapped error only before a value, and changes no field |
| Await.ReceiveCompletion | Sources/CombineAsyncually/Subscriber+Await.swift:90-104 | before a value, `.finished` resumes with `upstreamDidNotEmitValue` and `.failure(e)` with `e`; after a value nothing is resumed; subscription and continuation are cleared either way and `didEmitValue` is unchanged |
| Await.ResumesBoundedByRegistrations | Sources/CombineAsyncually/Subscriber+Await.swift:36-104 | over any event sequence, the invocations of a continuation plus whether it is still held never exceed its registrations plus whether it was held at the start |
| Await.ResumedAtMostOnce | Sources/CombineAsyncually/Subscriber+Await.swift:77-104 | from `Await.Init`, the state `init(upstream:)` and the field defaults (lines 18-32) leave, a continuation registered at most once is invoked at most once, whatever the upstream sends or cancels |
| Await.NothingBeforeContinue | Sources/CombineAsyncually/Subscriber+Await.swift:18-39 | from the state `init(upstream:)` leaves, nothing is subscribed to and nothing is resumed until `continue(with:)` is called |
| Await.SubscribesOnlyOnContinue | Sources/CombineAsyncually/Subscriber+Await.swift:36-39 | from any state, no sequence without `continue(with:)` subscribes upstream |
| Await.Quiescent | Sources/CombineAsyncually/Subscriber+Await.swift:48-51 | once no continuation is held, no sequence without a new `continue` resumes anything, and none is held afterwards |
| Await.NothingAfterCancel | Sources/CombineAsyncually/Subscriber+Await.swift:41-46 | after `cancel()`, no later sequence of values, completions, subscriptions or cancels resumes anything; a later `continue(with:)` is covered by the next two rows |
| Await.CancelledWaitNeverResumes | Sources/CombineAsyncually/PublisherAwaiting.swift:28-36 | a fresh bridge that registers `k`, receives a subscription and is then cancelled never resumes anyone, whatever follows without a new `continue(with:)`, so the awaiting caller stays suspended |
| Await.ResumesAfterCancelBounded | Sources/CombineAsyncually/Subscriber+Await.swift:41-51 | after `cancel()`, any sequence, new `continue(with:)` calls included, invokes each continuation no more often than it is registered again |
| Await.ContinueAfterCancelRearms | Sources/CombineAsyncually/Subscriber+Await.swift:36-51 | `cancel()` then `continue(with: k)` re-arms the bridge: `k` is resumed exactly as `Decide` predicts for what follows, or never if a value was emitted before the cancel |
| Await.EmittedResumesNothing | Sources/CombineAsyncually/Subscriber+Await.swift:79-94 | once a value has been emitted, no later sequence, new continuations included, resumes anything, and `didEmitValue` stays set |
| Await.CancelOvertakenByValue | Sources/CombineAsyncually/Subscriber+Await.swift:41-88 | if a value's handler runs between the locked part of `cancel()` and its `cleanup()`, the caller is resumed with the value after its subscription was cancelled; the atomic `cancel()` then the value resumes nothing |
| Await.CompletionOvertakenByValue | Sources/CombineAsyncually/Subscriber+Await.swift:77-104 | if a value's handler runs between the locked part of `receive(completion:)` and its `cleanup()`, the caller is resumed twice; the atomic handlers in that order resume it at most once |
| Await.ResumesFirstDecision | Sources/CombineAsyncually/Subscriber+Await.swift:77-104 | while a caller waits and nothing was emitted, the resumptions equal the reference `Decide`: one resumption with the first value or completion, or none if `cancel()` comes first or nothing decisive arrives |
| Await.AwaitOnce | Sources/CombineAsyncually/Subscriber+Await.swift:36-104 | from a fresh bridge, `continue(with: k)` then any upstream behaviour resumes `k` exactly as `Decide` predicts: first value wins, failure passes through, an empty upstream gives `upstreamDidNotEmitValue` |
| Await.RequestsAskForOne | Sources/CombineAsyncually/Subscriber+Await.swift:70-75 | over any event sequence, every demand the bridge requests is `.max(1)` |
| Await.SubscriptionAfterCancelIsKept | Sources/CombineAsyncually/Subscriber+Await.swift:41-46 | from any state, `cancel()` followed by a newly arrived subscription produces only the cancel's own effects and a request of `.max(1)`; the new subscription stays held with no continuation, and nothing cancels it |
| TaskPublisher.ReceiveSubscriber | Sources/CombineAsyncually/Task+Publisher.swift:33-36 | subscribing to a publisher creates a fresh subscription holding no handle and attached to the subscriber, hands it over, and starts no work |
| TaskPublisher.Request | Sources/CombineAsyncually/Task+Publisher.swift:72-88 | zero demand changes nothing; positive demand starts the closure only when no handle is held and otherwise changes nothing |
| TaskPublisher.Cancel | Sources/CombineAsyncually/Task+Publisher.swift:90-95 | `cancel()` cancels the task exactly when a handle is held and detaches both handle and downstream (`TaskPublisher.Cleanup` is `cleanup()`, lines 59-62) |
| TaskPublisher.Receive | Sources/CombineAsyncually/Task+Publisher.swift:103-109 | a returned value is sent to an attached downstream as the value and then `.finished`, to no one otherwise, and the subscription is cleaned up |
| TaskPublisher.StartsBoundedByCleanups | Sources/CombineAsyncually/Task+Publisher.swift:59-62 | over any event sequence, closure starts plus the initial handle never exceed cleanups plus the final handle, so every restart needs a delivery or a cancel in between |
| TaskPublisher.StartsOnceWithoutCleanup | Sources/CombineAsyncually/Task+Publisher.swift:77-86 | with only requests, the closure starts exactly once if no handle was held and some request was positive, and never otherwise; the downstream stays attached |
| TaskPublisher.ZeroDemandStartsNothing | Sources/CombineAsyncually/Task+Publisher.swift:72-75 | any number of zero-demand requests starts nothing |
| TaskPublisher.DetachedDeliversNothing | Sources/CombineAsyncually/Task+Publisher.swift:90-109 | once the downstream is detached, no later requests, cancels or results deliver anything, even if the closure is started again |
| TaskPublisher.DeliversFirstResult | Sources/CombineAsyncually/Task+Publisher.swift:103-109 | over any event sequence, the downstream receives what the reference `Decide` predicts: the first result as value then `.finished`, or nothing if `cancel()` comes first |
| TaskPublisher.NeverFails | Sources/CombineAsyncually/Task+Publisher.swift:31 | with failure type `Never`, no event sequence sends a failure completion |
| TaskPublisher.SinkReceivesValue | Tests/CombineAsyncuallyTests/TaskPublishingTests.swift:17-43 | with unlimited demand and a closure returning `v`, the closure starts once and the subscriber gets `v` then `.finished` |
| ThrowingTaskPublisher.ReceiveError | Sources/CombineAsyncually/Task+ThrowingPublisher.swift:115-120 | a thrown error is sent to an attached downstream as `.failure(error)` alone, to no one otherwise, and the subscription is cleaned up |
| ThrowingTaskPublisher.StartsOnceWithoutCleanup | Sources/CombineAsyncually/Task+ThrowingPublisher.swift:72-92 | with only requests, the throwing closure starts exactly once if no handle was held and some request was positive, and never otherwise |
| ThrowingTaskPublisher.StartsBoundedByCleanups | Sources/CombineAsyncually/Task+ThrowingPublisher.swift:59-62 | over any sequence of calls, returns and throws, starts never exceed cleanups plus the final handle minus the initial one |
| ThrowingTaskPublisher.DetachedDeliversNothing | Sources/CombineAsyncually/Task+ThrowingPublisher.swift:94-99 | once the downstream is detached by delivery or cancel, neither a later value nor a later error reaches anyone |
| ThrowingTaskPublisher.DeliversFirstOutcome | Sources/CombineAsyncually/Task+ThrowingPublisher.swift:107-120 | over any event sequence, the downstream receives what `Decide` predicts for the first outcome: value then `.finished`, `.failure(e)` alone, or nothing after `cancel()` |
| ThrowingTaskPublisher.DeliversSingleOutcome | Sources/CombineAsyncually/Task+ThrowingPublisher.swift:84-89 | over any event sequence, the downstream gets nothing, or one value then `.finished`, or one `.failure` and no value |
| ThrowingTaskPublisher.SinkReceivesOutcome | Tests/CombineAsyncuallyTests/TaskPublishingTests.swift:45-114 | with positive demand, a closure returning `v` yields `v` then `.finished`, and a closure throwing `e` yields exactly `.failure(e)`; `ThrowingTaskPublisher.Finish` is the closure's `do`/`catch` routing (Task+ThrowingPublisher.swift:84-89) |
| Pipeline.AwaitThrowingTask | Sources/CombineAsyncually/PublisherAwaiting.swift:25-38 | with the bridge's subscription calls fed to a throwing task publisher's subscription and its subscriber calls fed back, the bridge asks for exactly one element and the caller is resumed once with exactly the closure's outcome, its value or the error it threw |
| Pipeline.AwaitTask | Sources/CombineAsyncually/PublisherAwaiting.swift:54-67 | a bridge waiting on a continuation with nothing emitted, wired both ways to a non-throwing task publisher (failure type widened to `Error`), asks for exactly one element and resumes that continuation exactly once, with the returned value |
| Pipeline.CancelledWaitResolvesNothing | Sources/CombineAsyncually/PublisherAwaiting.swift:28-30 | in one wired run, with the bridge's subscription calls fed to the throwing publisher's subscription and its subscriber calls fed back: a wait cancelled after subscribing sends the subscription one request for `.max(1)` and one cancel; the subscription starts the task, cancels it and delivers nothing when the outcome arrives late; the caller is never resumed, whatever else arrives |

## Left out

- `UnfairLock` (Sources/CombineAsyncually/Utilities/UnfairLock.swift) wraps `os_unfair_lock`, a foreign call. The locks are not modelled; every handler is one atomic step.
- Interleaving of handlers is not modelled in general. Only the two bridge handlers whose `cleanup()` runs outside the lock are split, and only to exhibit the overlaps above. Re-entrant calls made by `subscription.request(.max(1))` or by a downstream while a handler is running are not modelled either.
- Await.ResumedAtMostOnce: holds only when the handlers of one bridge are serialised, which the source does not enforce; a value handled between a completion's locked part and its `cleanup()` resumes twice (`Await.CompletionOvertakenByValue`).
- Await.NothingAfterCancel: holds only when `cancel()` and the receive handlers are serialised, which the source does not enforce, since they take different locks; a value handled during `cancel()` resumes the caller (`Await.CancelOvertakenByValue`).
- Await.ResumesBoundedByRegistrations: the same serialisation assumption as the two lines above.
- Pipeline.CancelledWaitResolvesNothing: relies on `Await.NothingAfterCancel` and on the task publisher's `cancel()` running before the late result, so it carries the same assumption.
- TaskPublisher.DeliversFirstResult: holds only when `cancel()` (under `handleLock`) and `receive(_:)` (under `downstreamLock`) are serialised; overlapping, a result can still be delivered after the task was cancelled.
- ThrowingTaskPublisher.DeliversFirstOutcome: the same assumption as `TaskPublisher.DeliversFirstResult`.
- The closure captures the subscription `weak` (Task+Publisher.swift:83-85, Task+ThrowingPublisher.swift:83-88), so the result of a task whose subscription nobody retains any more is dropped. Memory is not modelled; this is covered only because a task's return or throw event may never arrive.
- `get()` in PublisherAwaiting.swift is a wrapper over `withUnsafeThrowingContinuation` and `withTaskCancellationHandler`. Only its wiring appears, in the `Pipeline` lemmas: the bridge's requests and cancels are fed to the publisher's subscription, and the publisher's subscriber calls are fed to the bridge, in order.
- Publisher+Await.swift (`await` and `tryAwait`) composes Combine's `flatMap`, `setFailureType` and `eraseToAnyPublisher`. Their behaviour is not visible here.
- TaskPublishing.swift (`withPublisher` and `withThrowingPublisher`) only forwards to the initialisers. The initialisers store the closure and do nothing else. The closure itself is not represented.
- Task scheduling and `detach` are not modelled. A started task is an effect, and its return or throw is an event that may arrive at any time, any number of times. Cooperative cancellation is not modelled either: a cancelled task may still finish.
- The demand returned by the downstream's `receive(_:)` in the task publishers is ignored by the source and is not modelled.
- The upstream publisher `Await` subscribes to is an identity. The bridge's `Subscribe` effect records the call.
