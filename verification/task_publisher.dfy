/** `Task.Publisher` and its `Subscription` (Sources/CombineAsyncually/Task+Publisher.swift):
    a cold publisher that runs a non-throwing async closure on first positive demand and
    sends its value followed by `.finished`.  The closure is opaque: starting it is an
    effect, and its return is an event carrying the value.  The request, cancel and
    delivery handlers are shared with `Task.ThrowingPublisher`, whose Swift code for them
    is the same. */
module TaskPublisher {
  import opened Combine

  /** The handle `detach` returns; holding one means the closure has been started. */
  datatype TaskHandle = Detached

  /** The mutable fields of one subscription; `D` identifies the downstream subscriber.
      No field holds a `V` or an `Err`; as on the generic Swift class, the parameters fix
      the output and failure types the subscription sends, so that every handler's types
      follow from its arguments. */
  datatype Subscription<V, Err, +D> = Subscription(handle: Option<TaskHandle>, downstream: Option<D>)

  /** Calls a subscription (or its publisher) makes on its collaborators. */
  datatype Effect<+V, +Err, +D> =
    | HandOver(subscriber: D)                     // subscriber.receive(subscription:)
    | StartTask                                   // handle = detach { ... closure() ... }
    | CancelTask                                  // handle.cancel()
    | Deliver(subscriber: D, signal: Signal<V, Err>)  // downstream.receive(...)

  /** Calls made on a `Task.Publisher` subscription, each handled atomically. */
  datatype Event<+V> =
    | RequestCalled(demand: Demand)
    | CancelCalled
    | TaskReturned(value: V)

  /** A `Task.Publisher<Output>`: its closure is opaque, so it carries nothing but its
      output type `V` and failure type `Err`.  Creating one does no work.  It is passed to
      `ReceiveSubscriber` only to fix those two types for the subscription it creates. */
  datatype Publisher<V, Err> = Publisher

  /** `receive(subscriber:)`: a fresh subscription holding no handle is created for the
      subscriber and handed to it; the closure is not started. */
  function ReceiveSubscriber<V, Err, D>(p: Publisher<V, Err>, d: D): (t: Transition<Subscription<V, Err, D>, Effect<V, Err, D>>)
    ensures t.next.handle.None? && t.next.downstream == Some(d)
    ensures t.effects == [HandOver(d)]
  {
    Transition(Subscription(None, Some(d)), [HandOver(d)])
  }

  /** `cleanup()`: forget both the handle and the downstream.  `Cancel`, `Receive` and the
      throwing publisher's `ReceiveError` state its effect in their contracts. */
  function Cleanup<V, Err, D>(): Subscription<V, Err, D> {
    Subscription(None, None)
  }

  /** `request(_:)`: a positive demand starts the closure when no handle is held;
      anything else changes nothing. */
  function Request<V, Err, D>(sub: Subscription<V, Err, D>, demand: Demand): (t: Transition<Subscription<V, Err, D>, Effect<V, Err, D>>)
    ensures !demand.IsPositive() ==> t == Transition(sub, [])
    ensures demand.IsPositive() && sub.handle.Some? ==> t == Transition(sub, [])
    ensures demand.IsPositive() && sub.handle.None? ==>
              t.next == sub.(handle := Some(Detached)) && t.effects == [StartTask]
  {
    if !demand.IsPositive() then Transition(sub, [])
    else if sub.handle.Some? then Transition(sub, [])
    else Transition(sub.(handle := Some(Detached)), [StartTask])
  }

  /** `cancel()`: cancel the held task, if any, then clean up. */
  function Cancel<V, Err, D>(sub: Subscription<V, Err, D>): (t: Transition<Subscription<V, Err, D>, Effect<V, Err, D>>)
    ensures t.next.handle.None? && t.next.downstream.None?
    ensures sub.handle.Some? ==> t.effects == [CancelTask]
    ensures sub.handle.None? ==> t.effects == []
  {
    Transition(Cleanup(), if sub.handle.Some? then [CancelTask] else [])
  }

  /** `receive(_:)`: the task returned; send the value and then `.finished` to the
      downstream, if one is still attached, then clean up. */
  function Receive<V, Err, D>(sub: Subscription<V, Err, D>, v: V): (t: Transition<Subscription<V, Err, D>, Effect<V, Err, D>>)
    ensures t.next.handle.None? && t.next.downstream.None?
    ensures sub.downstream.None? ==> t.effects == []
    ensures sub.downstream.Some? ==>
              t.effects == [Deliver(sub.downstream.value, Value(v)), Deliver(sub.downstream.value, Completed(Finished))]
  {
    var sent := match sub.downstream
      case None => []
      case Some(d) => [Deliver(d, Value(v)), Deliver(d, Completed(Finished))];
    Transition(Cleanup(), sent)
  }

  function Step<V, Err, D>(sub: Subscription<V, Err, D>, ev: Event<V>): Transition<Subscription<V, Err, D>, Effect<V, Err, D>> {
    match ev
    case RequestCalled(demand) => Request(sub, demand)
    case CancelCalled => Cancel(sub)
    case TaskReturned(v) => Receive(sub, v)
  }

  /** Handle the events one after another, concatenating their effects. */
  function Run<V, Err, D>(sub: Subscription<V, Err, D>, evs: seq<Event<V>>): Transition<Subscription<V, Err, D>, Effect<V, Err, D>>
    decreases |evs|
  {
    if evs == [] then Transition(sub, [])
    else
      var first := Step(sub, evs[0]);
      var rest := Run(first.next, evs[1..]);
      Transition(rest.next, first.effects + rest.effects)
  }

  // ----- Observations over logs -----

  /** The signals sent downstream, in order. */
  function Deliveries<V, Err, D>(effects: seq<Effect<V, Err, D>>): seq<Effect<V, Err, D>> {
    if effects == [] then []
    else (if effects[0].Deliver? then [effects[0]] else []) + Deliveries(effects[1..])
  }

  /** How many times the closure is started. */
  function StartCount<V, Err, D>(effects: seq<Effect<V, Err, D>>): nat {
    if effects == [] then 0
    else (if effects[0].StartTask? then 1 else 0) + StartCount(effects[1..])
  }

  /** How many events run `cleanup()`. */
  function CleanupCount<V>(evs: seq<Event<V>>): nat {
    if evs == [] then 0
    else (if evs[0].RequestCalled? then 0 else 1) + CleanupCount(evs[1..])
  }

  predicate HasPositiveRequest<V>(evs: seq<Event<V>>) {
    exists i :: 0 <= i < |evs| && evs[i].RequestCalled? && evs[i].demand.IsPositive()
  }

  function Held<V, Err, D>(sub: Subscription<V, Err, D>): nat {
    if sub.handle.Some? then 1 else 0
  }

  lemma DeliveriesAppend<V, Err, D>(a: seq<Effect<V, Err, D>>, b: seq<Effect<V, Err, D>>)
    ensures Deliveries(a + b) == Deliveries(a) + Deliveries(b)
  {
    if a != [] {
      assert (a + b)[1..] == a[1..] + b;
      DeliveriesAppend(a[1..], b);
    } else {
      assert a + b == b;
    }
  }

  lemma StartCountAppend<V, Err, D>(a: seq<Effect<V, Err, D>>, b: seq<Effect<V, Err, D>>)
    ensures StartCount(a + b) == StartCount(a) + StartCount(b)
  {
    if a != [] {
      assert (a + b)[1..] == a[1..] + b;
      StartCountAppend(a[1..], b);
    } else {
      assert a + b == b;
    }
  }

  // ----- Properties of event sequences -----

  /** Each start of the closure takes the handle slot, which only `cleanup()` frees: over
      any calls, starts never exceed cleanups plus the handle held at the end. */
  lemma {:induction false} StartsBoundedByCleanups<V, Err, D>(sub: Subscription<V, Err, D>, evs: seq<Event<V>>)
    ensures StartCount(Run(sub, evs).effects) + Held(sub)
            <= CleanupCount(evs) + Held(Run(sub, evs).next)
    decreases |evs|
  {
    if evs != [] {
      var first := Step(sub, evs[0]);
      StartsBoundedByCleanups(first.next, evs[1..]);
      StartCountAppend(first.effects, Run(first.next, evs[1..]).effects);
    }
  }

  /** Without a cleanup in between, repeated requests start the closure once: exactly once
      when no handle was held and some request is positive, and never otherwise. */
  lemma {:induction false} StartsOnceWithoutCleanup<V, Err, D>(sub: Subscription<V, Err, D>, evs: seq<Event<V>>)
    requires CleanupCount(evs) == 0
    ensures StartCount(Run(sub, evs).effects) == (if sub.handle.None? && HasPositiveRequest(evs) then 1 else 0)
    ensures Run(sub, evs).next.downstream == sub.downstream
    decreases |evs|
  {
    if evs != [] {
      var first := Step(sub, evs[0]);
      assert evs[0].RequestCalled?;
      StartsOnceWithoutCleanup(first.next, evs[1..]);
      StartCountAppend(first.effects, Run(first.next, evs[1..]).effects);
      if HasPositiveRequest(evs[1..]) {
        var i :| 0 <= i < |evs[1..]| && evs[1..][i].RequestCalled? && evs[1..][i].demand.IsPositive();
        assert evs[i + 1] == evs[1..][i];
      }
      if HasPositiveRequest(evs) && !evs[0].demand.IsPositive() {
        var i :| 0 <= i < |evs| && evs[i].RequestCalled? && evs[i].demand.IsPositive();
        assert evs[1..][i - 1] == evs[i];
      }
    }
  }

  /** Requests of zero demand never start the closure, however many arrive. */
  lemma ZeroDemandStartsNothing<V, Err, D>(sub: Subscription<V, Err, D>, evs: seq<Event<V>>)
    requires forall i :: 0 <= i < |evs| ==> evs[i].RequestCalled? && !evs[i].demand.IsPositive()
    ensures StartCount(Run(sub, evs).effects) == 0
  {
    assert CleanupCount(evs) == 0 by { NoCleanupWhenOnlyRequests(evs); }
    StartsOnceWithoutCleanup(sub, evs);
  }

  lemma {:induction false} NoCleanupWhenOnlyRequests<V>(evs: seq<Event<V>>)
    requires forall i :: 0 <= i < |evs| ==> evs[i].RequestCalled?
    ensures CleanupCount(evs) == 0
    decreases |evs|
  {
    if evs != [] {
      assert evs[0].RequestCalled?;
      NoCleanupWhenOnlyRequests(evs[1..]);
    }
  }

  /** Once the downstream is detached (by delivery or `cancel()`) nothing reaches anyone,
      even if a later request starts the closure again. */
  lemma {:induction false} DetachedDeliversNothing<V, Err, D>(sub: Subscription<V, Err, D>, evs: seq<Event<V>>)
    requires sub.downstream.None?
    ensures Deliveries(Run(sub, evs).effects) == []
    ensures Run(sub, evs).next.downstream.None?
    decreases |evs|
  {
    if evs != [] {
      var first := Step(sub, evs[0]);
      assert Deliveries(first.effects) == [];
      DetachedDeliversNothing(first.next, evs[1..]);
      DeliveriesAppend(first.effects, Run(first.next, evs[1..]).effects);
    }
  }

  /** Reference semantics for one downstream: the first task result or cancellation
      decides; a result is sent as its value then `.finished`, a cancellation sends
      nothing, and requests decide nothing. */
  function Decide<V, Err, D>(d: D, evs: seq<Event<V>>): seq<Effect<V, Err, D>>
    decreases |evs|
  {
    if evs == [] then []
    else
      match evs[0]
      case TaskReturned(v) => [Deliver(d, Value(v)), Deliver(d, Completed(Finished))]
      case CancelCalled => []
      case RequestCalled(_) => Decide(d, evs[1..])
  }

  /** Whatever calls and task results arrive, the downstream receives exactly what the
      reference semantics predicts: at most one value, always followed by `.finished`. */
  lemma {:induction false} DeliversFirstResult<V, Err, D>(sub: Subscription<V, Err, D>, evs: seq<Event<V>>, d: D)
    requires sub.downstream == Some(d)
    ensures Deliveries(Run(sub, evs).effects) == Decide(d, evs)
    decreases |evs|
  {
    if evs != [] {
      var first := Step(sub, evs[0]);
      DeliveriesAppend(first.effects, Run(first.next, evs[1..]).effects);
      match evs[0]
      case RequestCalled(_) =>
        DeliversFirstResult(first.next, evs[1..], d);
      case CancelCalled =>
        DetachedDeliversNothing(first.next, evs[1..]);
      case TaskReturned(v) =>
        DetachedDeliversNothing(first.next, evs[1..]);
    }
  }

  /** A failure completion sent downstream. */
  predicate SendsFailure<V, Err, D>(e: Effect<V, Err, D>) {
    e.Deliver? && e.signal.Completed? && e.signal.completion.Failure?
  }

  /** The failure type is `Never`: whatever calls and results arrive, no failure
      completion is ever sent. */
  lemma {:induction false} NeverFails<V, Err, D>(sub: Subscription<V, Err, D>, evs: seq<Event<V>>)
    ensures forall i :: 0 <= i < |Run(sub, evs).effects| ==> !SendsFailure(Run(sub, evs).effects[i])
    decreases |evs|
  {
    if evs != [] {
      var first := Step(sub, evs[0]);
      var rest := Run(first.next, evs[1..]);
      NeverFails(first.next, evs[1..]);
      assert forall i :: 0 <= i < |first.effects| ==> !SendsFailure(first.effects[i]);
      forall i | 0 <= i < |first.effects + rest.effects|
        ensures !SendsFailure((first.effects + rest.effects)[i])
      {
        if i >= |first.effects| {
          assert (first.effects + rest.effects)[i] == rest.effects[i - |first.effects|];
        }
      }
    }
  }

  /** A subscriber with unlimited demand (as `sink` makes) gets the closure's value once,
      then `.finished`. */
  lemma SinkReceivesValue<V, Err, D>(p: Publisher<V, Err>, d: D, v: V)
    ensures var sub := ReceiveSubscriber(p, d).next;
            var t := Run(sub, [RequestCalled(Unlimited), TaskReturned(v)]);
            StartCount(t.effects) == 1 &&
            Deliveries(t.effects) == [Deliver(d, Value(v)), Deliver(d, Completed(Finished))]
  {
    var sub := ReceiveSubscriber(p, d).next;
    var evs: seq<Event<V>> := [RequestCalled(Unlimited), TaskReturned(v)];
    DeliversFirstResult(sub, evs, d);
    assert evs[1..] == [TaskReturned(v)];
    var started := Step(sub, evs[0]);
    assert started.effects == [StartTask];
    var tail: seq<Event<V>> := [TaskReturned(v)];
    assert evs[1..] == tail;
    var last := Step(started.next, TaskReturned(v));
    var sent: seq<Effect<V, Err, D>> := [Deliver(d, Value(v)), Deliver(d, Completed(Finished))];
    assert last.effects == sent;
    assert tail[1..] == [];
    assert Run(last.next, tail[1..]).effects == [];
    var returned := Run(started.next, tail);
    assert returned.effects == sent + [];
    assert StartCount(sent[1..][1..]) == 0;
    StartCountAppend(started.effects, returned.effects);
  }
}
