/** `Task.ThrowingPublisher` and its `Subscription`
    (Sources/CombineAsyncually/Task+ThrowingPublisher.swift): the cold publisher for a
    throwing async closure.  Its request, cancel and value handlers are the same as
    `Task.Publisher`'s and are reused from that module; what it adds is
    `receive(error:)`, and a task that may finish by throwing. */
module ThrowingTaskPublisher {
  import opened Combine
  import T = TaskPublisher

  /** Calls made on a `Task.ThrowingPublisher` subscription, each handled atomically. */
  datatype Event<+V, +Err> =
    | RequestCalled(demand: Demand)
    | CancelCalled
    | TaskReturned(value: V)
    | TaskThrew(error: Err)

  /** `receive(error:)`: the task threw; send `.failure(error)` and no value to the
      downstream, if one is still attached, then clean up. */
  function ReceiveError<V, Err, D>(sub: T.Subscription<V, Err, D>, e: Err): (t: Transition<T.Subscription<V, Err, D>, T.Effect<V, Err, D>>)
    ensures t.next.handle.None? && t.next.downstream.None?
    ensures sub.downstream.None? ==> t.effects == []
    ensures sub.downstream.Some? ==> t.effects == [T.Deliver(sub.downstream.value, Completed(Failure(e)))]
  {
    var sent := match sub.downstream
      case None => []
      case Some(d) => [T.Deliver(d, Completed(Failure(e)))];
    Transition(T.Cleanup(), sent)
  }

  function Step<V, Err, D>(sub: T.Subscription<V, Err, D>, ev: Event<V, Err>): Transition<T.Subscription<V, Err, D>, T.Effect<V, Err, D>> {
    match ev
    case RequestCalled(demand) => T.Request(sub, demand)
    case CancelCalled => T.Cancel(sub)
    case TaskReturned(v) => T.Receive(sub, v)
    case TaskThrew(e) => ReceiveError(sub, e)
  }

  /** Handle the events one after another, concatenating their effects. */
  function Run<V, Err, D>(sub: T.Subscription<V, Err, D>, evs: seq<Event<V, Err>>): Transition<T.Subscription<V, Err, D>, T.Effect<V, Err, D>>
    decreases |evs|
  {
    if evs == [] then Transition(sub, [])
    else
      var first := Step(sub, evs[0]);
      var rest := Run(first.next, evs[1..]);
      Transition(rest.next, first.effects + rest.effects)
  }

  /** `Task.Publisher` calls as calls on a throwing subscription, whose request, cancel and
      value handlers are the same. */
  function Lift<V, Err>(evs: seq<T.Event<V>>): seq<Event<V, Err>>
    decreases |evs|
  {
    if evs == [] then []
    else
      var head: Event<V, Err> := match evs[0]
        case RequestCalled(demand) => RequestCalled(demand)
        case CancelCalled => CancelCalled
        case TaskReturned(v) => TaskReturned(v);
      [head] + Lift(evs[1..])
  }

  /** The `do`/`catch` in the detached closure: a return becomes a call of `receive(_:)`,
      a throw a call of `receive(error:)`.  `SinkReceivesOutcome` and the `Pipeline`
      lemmas state what each outcome leads to. */
  function Finish<V, Err>(outcome: Result<V, Err>): Event<V, Err> {
    match outcome
    case Success(v) => TaskReturned(v)
    case Failed(e) => TaskThrew(e)
  }

  /** How many events run `cleanup()`. */
  function CleanupCount<V, Err>(evs: seq<Event<V, Err>>): nat {
    if evs == [] then 0
    else (if evs[0].RequestCalled? then 0 else 1) + CleanupCount(evs[1..])
  }

  predicate HasPositiveRequest<V, Err>(evs: seq<Event<V, Err>>) {
    exists i :: 0 <= i < |evs| && evs[i].RequestCalled? && evs[i].demand.IsPositive()
  }

  /** Without a cleanup in between, repeated requests start the closure once: exactly once
      when no handle was held and some request is positive, and never otherwise. */
  lemma {:induction false} StartsOnceWithoutCleanup<V, Err, D>(sub: T.Subscription<V, Err, D>, evs: seq<Event<V, Err>>)
    requires CleanupCount(evs) == 0
    ensures T.StartCount(Run(sub, evs).effects) == (if sub.handle.None? && HasPositiveRequest(evs) then 1 else 0)
    decreases |evs|
  {
    if evs != [] {
      var first := Step(sub, evs[0]);
      assert evs[0].RequestCalled?;
      StartsOnceWithoutCleanup(first.next, evs[1..]);
      T.StartCountAppend(first.effects, Run(first.next, evs[1..]).effects);
      if HasPositiveRequest(evs[1..]) {
        var i :| 0 <= i < |evs[1..]| && evs[1..][i].RequestCalled? && evs[1..][i].demand.IsPositive();
        assert evs[i + 1] == evs[1..][i];
      }
      if HasPositiveRequest(evs) && !evs[0].demand.IsPositive() {
        var i :| 0 <= i < |evs| && evs[i].RequestCalled? && evs[i].demand.IsPositive();
        assert evs[1..][i - 1] == evs[i];
      }
    }
  }

  /** Each start takes the handle slot, which only `cleanup()` frees: over any calls and
      task outcomes, starts never exceed cleanups plus the handle held at the end. */
  lemma {:induction false} StartsBoundedByCleanups<V, Err, D>(sub: T.Subscription<V, Err, D>, evs: seq<Event<V, Err>>)
    ensures T.StartCount(Run(sub, evs).effects) + T.Held(sub)
            <= CleanupCount(evs) + T.Held(Run(sub, evs).next)
    decreases |evs|
  {
    if evs != [] {
      var first := Step(sub, evs[0]);
      StartsBoundedByCleanups(first.next, evs[1..]);
      T.StartCountAppend(first.effects, Run(first.next, evs[1..]).effects);
    }
  }

  /** Once the downstream is detached (by either delivery or `cancel()`) nothing reaches
      anyone, even if a later request starts the closure again. */
  lemma {:induction false} DetachedDeliversNothing<V, Err, D>(sub: T.Subscription<V, Err, D>, evs: seq<Event<V, Err>>)
    requires sub.downstream.None?
    ensures T.Deliveries(Run(sub, evs).effects) == []
    decreases |evs|
  {
    if evs != [] {
      var first := Step(sub, evs[0]);
      assert T.Deliveries(first.effects) == [];
      DetachedDeliversNothing(first.next, evs[1..]);
      T.DeliveriesAppend(first.effects, Run(first.next, evs[1..]).effects);
    }
  }

  /** Reference semantics for one downstream: the first task outcome or cancellation
      decides; a value is sent then `.finished`, an error is sent as `.failure` alone, a
      cancellation sends nothing, and requests decide nothing. */
  function Decide<V, Err, D>(d: D, evs: seq<Event<V, Err>>): seq<T.Effect<V, Err, D>>
    decreases |evs|
  {
    if evs == [] then []
    else
      match evs[0]
      case TaskReturned(v) => [T.Deliver(d, Value(v)), T.Deliver(d, Completed(Finished))]
      case TaskThrew(e) => [T.Deliver(d, Completed(Failure(e)))]
      case CancelCalled => []
      case RequestCalled(_) => Decide(d, evs[1..])
  }

  /** Whatever calls and task outcomes arrive, the downstream receives exactly what the
      reference semantics predicts. */
  lemma {:induction false} DeliversFirstOutcome<V, Err, D>(sub: T.Subscription<V, Err, D>, evs: seq<Event<V, Err>>, d: D)
    requires sub.downstream == Some(d)
    ensures T.Deliveries(Run(sub, evs).effects) == Decide(d, evs)
    decreases |evs|
  {
    if evs != [] {
      var first := Step(sub, evs[0]);
      T.DeliveriesAppend(first.effects, Run(first.next, evs[1..]).effects);
      match evs[0]
      case RequestCalled(_) =>
        DeliversFirstOutcome(first.next, evs[1..], d);
      case CancelCalled =>
        DetachedDeliversNothing(first.next, evs[1..]);
      case TaskReturned(v) =>
        DetachedDeliversNothing(first.next, evs[1..]);
      case TaskThrew(e) =>
        DetachedDeliversNothing(first.next, evs[1..]);
    }
  }

  /** The single-value contract: a downstream sees nothing, or one value then `.finished`,
      or one `.failure` and no value. */
  predicate SingleOutcome<V, Err, D>(ds: seq<T.Effect<V, Err, D>>) {
    || ds == []
    || (|ds| == 2 && ds[0].Deliver? && ds[0].signal.Value? && ds[1].Deliver? && ds[1].signal == Completed(Finished))
    || (|ds| == 1 && ds[0].Deliver? && ds[0].signal.Completed? && ds[0].signal.completion.Failure?)
  }

  lemma {:induction false} DecideIsSingleOutcome<V, Err, D>(d: D, evs: seq<Event<V, Err>>)
    ensures SingleOutcome(Decide(d, evs))
    decreases |evs|
  {
    if evs != [] && evs[0].RequestCalled? {
      DecideIsSingleOutcome(d, evs[1..]);
    }
  }

  /** Over any calls and task outcomes, the downstream is sent at most one value and at
      most one completion, never a value after a failure. */
  lemma DeliversSingleOutcome<V, Err, D>(sub: T.Subscription<V, Err, D>, evs: seq<Event<V, Err>>)
    ensures SingleOutcome(T.Deliveries(Run(sub, evs).effects))
  {
    if sub.downstream.None? {
      DetachedDeliversNothing(sub, evs);
    } else {
      DeliversFirstOutcome(sub, evs, sub.downstream.value);
      DecideIsSingleOutcome(sub.downstream.value, evs);
    }
  }

  /** A subscriber that requests demand and whose closure throws `e` receives exactly
      `.failure(e)`; one whose closure returns `v` receives `v` then `.finished`. */
  lemma SinkReceivesOutcome<V, Err, D>(p: T.Publisher<V, Err>, d: D, demand: Demand, outcome: Result<V, Err>)
    requires demand.IsPositive()
    ensures var sub := T.ReceiveSubscriber(p, d).next;
            T.Deliveries(Run(sub, [RequestCalled(demand), Finish(outcome)]).effects) ==
              match outcome
              case Success(v) => [T.Deliver(d, Value(v)), T.Deliver(d, Completed(Finished))]
              case Failed(e) => [T.Deliver(d, Completed(Failure(e)))]
  {
    var sub := T.ReceiveSubscriber(p, d).next;
    var evs := [RequestCalled(demand), Finish(outcome)];
    DeliversFirstOutcome(sub, evs, d);
    assert evs[1..] == [Finish(outcome)];
  }
}
