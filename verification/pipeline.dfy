/** The bridge and the task publishers wired together as `get()` wires them
    (Sources/CombineAsyncually/PublisherAwaiting.swift): `Await.continue` subscribes to a
    task publisher, the subscription it is handed asks for one element, the closure
    runs, and its outcome is delivered to the bridge.  Every subscriber call the
    publisher makes on the bridge becomes an event of the bridge. */
module Pipeline {
  import opened Combine
  import A = Await
  import T = TaskPublisher
  import TT = ThrowingTaskPublisher

  /** The calls a publisher's effects make on the bridge, given the identity `s` of the
      subscription it hands over; starting or cancelling the task is not a subscriber call. */
  function ToAwaitEvents<V, E, D>(effects: seq<T.Effect<V, Error<E>, D>>, s: A.SubscriptionId): seq<A.Event<V, E>>
    decreases |effects|
  {
    if effects == [] then []
    else
      var head: seq<A.Event<V, E>> := match effects[0]
        case HandOver(_) => [A.SubscriptionReceived(s)]
        case StartTask => []
        case CancelTask => []
        case Deliver(_, Value(v)) => [A.InputReceived(v)]
        case Deliver(_, Completed(c)) => [A.CompletionReceived(c)];
      head + ToAwaitEvents(effects[1..], s)
  }

  lemma ToAwaitEventsAppend<V, E, D>(a: seq<T.Effect<V, Error<E>, D>>, b: seq<T.Effect<V, Error<E>, D>>, s: A.SubscriptionId)
    ensures ToAwaitEvents(a + b, s) == ToAwaitEvents(a, s) + ToAwaitEvents(b, s)
  {
    if a != [] {
      assert (a + b)[1..] == a[1..] + b;
      ToAwaitEventsAppend(a[1..], b, s);
    } else {
      assert a + b == b;
    }
  }

  /** Running two bridge events is running one after the other. */
  lemma AwaitRunPair<V, E>(st: A.State, e1: A.Event<V, E>, e2: A.Event<V, E>)
    ensures var first := A.Step(st, e1);
            var second := A.Step(first.next, e2);
            A.Run(st, [e1, e2]) == Transition(second.next, first.effects + second.effects)
  {
    var evs := [e1, e2];
    assert evs[1..] == [e2];
    assert evs[1..][1..] == [];
    var first := A.Step(st, e1);
    var second := A.Step(first.next, e2);
    assert A.Run(first.next, evs[1..]) == Transition(second.next, second.effects + []);
  }

  /** Running two throwing-publisher events is running one after the other. */
  lemma ThrowingRunPair<V, Err, D>(sub: T.Subscription<V, Err, D>, e1: TT.Event<V, Err>, e2: TT.Event<V, Err>)
    ensures var first := TT.Step(sub, e1);
            var second := TT.Step(first.next, e2);
            TT.Run(sub, [e1, e2]) == Transition(second.next, first.effects + second.effects)
  {
    var evs := [e1, e2];
    assert evs[1..] == [e2];
    assert evs[1..][1..] == [];
    var first := TT.Step(sub, e1);
    var second := TT.Step(first.next, e2);
    assert TT.Run(first.next, evs[1..]) == Transition(second.next, second.effects + []);
  }

  /** What a subscription sends for a closure outcome: value then `.finished`, or `.failure`. */
  function Sent<V, E, D>(d: D, outcome: Result<V, Error<E>>): seq<T.Effect<V, Error<E>, D>> {
    match outcome
    case Success(v) => [T.Deliver(d, Value(v)), T.Deliver(d, Completed(Finished))]
    case Failed(e) => [T.Deliver(d, Completed(Failure(e)))]
  }

  /** The bridge events a closure outcome becomes once delivered. */
  function Seen<V, E>(outcome: Result<V, Error<E>>): seq<A.Event<V, E>> {
    match outcome
    case Success(v) => [A.InputReceived(v), A.CompletionReceived(Finished)]
    case Failed(e) => [A.CompletionReceived(Failure(e))]
  }

  lemma SentIsSeen<V, E, D>(d: D, s: A.SubscriptionId, outcome: Result<V, Error<E>>)
    ensures ToAwaitEvents([T.StartTask] + Sent(d, outcome), s) == Seen(outcome)
  {
    var sent := Sent(d, outcome);
    var started: seq<T.Effect<V, Error<E>, D>> := [T.StartTask];
    ToAwaitEventsAppend(started, sent, s);
    assert started[1..] == [];
    if outcome.Success? {
      assert sent[1..][1..] == [];
    } else {
      assert sent[1..] == [];
    }
  }

  /** The calls the bridge's effects make on the subscription `s` it was handed: requests
      and cancels.  Subscribing upstream and resuming the caller are not subscription calls. */
  function ToPublisherEvents<V, E>(effects: seq<A.Effect<V, E>>, s: A.SubscriptionId): seq<T.Event<V>>
    decreases |effects|
  {
    if effects == [] then []
    else
      var head: seq<T.Event<V>> := match effects[0]
        case Request(s', demand) => if s' == s then [T.RequestCalled(demand)] else []
        case CancelSubscription(s') => if s' == s then [T.CancelCalled] else []
        case Subscribe => []
        case Resume(_, _) => [];
      head + ToPublisherEvents(effects[1..], s)
  }

  /** A bridge handed a task publisher's subscription `s` stores it and asks it for one
      element, and that request is its only call on the subscription. */
  lemma HandedOver<V, E, D>(st: A.State<V, E>, s: A.SubscriptionId, p: T.Publisher<V, Error<E>>, d: D)
    ensures var subscribed := A.Run(st, ToAwaitEvents(T.ReceiveSubscriber(p, d).effects, s));
            subscribed.next == st.(upstreamSubscription := Some(s))
            && subscribed.effects == [A.Request(s, Max(1))]
            && ToPublisherEvents(subscribed.effects, s) == [T.RequestCalled(Max(1))]
  {
    var handed := T.ReceiveSubscriber(p, d);
    assert handed.effects[1..] == [];
    var evs := ToAwaitEvents(handed.effects, s);
    assert ToAwaitEvents(handed.effects[1..], s) == [];
    assert evs == [A.SubscriptionReceived(s)];
    assert evs[1..] == [];
    var r := A.ReceiveSubscription(st, s);
    assert A.Run(r.next, evs[1..]) == Transition(r.next, []);
    var calls: seq<A.Effect<V, E>> := [A.Request(s, Max(1))];
    assert calls[1..] == [];
  }

  /** A fresh bridge that registers `k` and is handed a task publisher's subscription
      subscribes upstream, asks the subscription for one element, and waits on `k`. */
  lemma WaitingOnHandOver<V, E, D>(k: A.ContinuationId, s: A.SubscriptionId, p: T.Publisher<V, Error<E>>, d: D)
    ensures var waiting := A.Run(A.Init(), [A.ContinueCalled(k)] + ToAwaitEvents(T.ReceiveSubscriber(p, d).effects, s));
            waiting.effects == [A.Subscribe, A.Request(s, Max(1))]
            && waiting.next == A.State(Some(s), false, Some(k))
            && ToPublisherEvents(waiting.effects, s) == [T.RequestCalled(Max(1))]
  {
    var c := A.Continue(A.Init<V, E>(), k);
    var rest := ToAwaitEvents(T.ReceiveSubscriber(p, d).effects, s);
    HandedOver(c.next, s, p, d);
    assert ([A.ContinueCalled(k)] + rest)[1..] == rest;
    var waiting := A.Run(A.Init(), [A.ContinueCalled(k)] + rest);
    assert waiting.effects == [A.Subscribe] + [A.Request(s, Max(1))];
    assert waiting.effects[1..] == [A.Request(s, Max(1))];
  }

  /** What the throwing publisher's subscription does when asked for one element and then
      reached by the closure's outcome: start the task, then send the outcome. */
  lemma ThrowingRunOnce<V, E, D>(p: T.Publisher<V, Error<E>>, d: D, outcome: Result<V, Error<E>>)
    ensures TT.Run(T.ReceiveSubscriber(p, d).next, TT.Lift([T.RequestCalled(Max(1))]) + [TT.Finish(outcome)]).effects
            == [T.StartTask] + Sent(d, outcome)
  {
    var calls: seq<T.Event<V>> := [T.RequestCalled(Max(1))];
    assert calls[1..] == [];
    assert TT.Lift<V, Error<E>>(calls[1..]) == [];
    assert TT.Lift<V, Error<E>>(calls) == [TT.RequestCalled(Max(1))];
    ThrowingRunPair(T.ReceiveSubscriber(p, d).next, TT.RequestCalled(Max(1)), TT.Finish(outcome));
  }

  /** A bridge waiting on `k` with nothing emitted resolves with exactly the delivered outcome. */
  lemma SeenResolves<V, E>(st: A.State<V, E>, k: A.ContinuationId, outcome: Result<V, Error<E>>)
    requires st.continuation == Some(k) && !st.didEmitValue
    ensures A.Resumes(A.Run(st, Seen(outcome)).effects) == [A.Resume(k, outcome)]
  {
    var seen := Seen(outcome);
    A.ResumesFirstDecision(st, seen, k);
    if outcome.Success? {
      assert seen[1..] == [A.CompletionReceived(Finished)];
    }
  }

  /** Awaiting a throwing task publisher, with every call one side makes fed to the other:
      `continue(with: k)`, the subscription handed over, the one request the bridge makes,
      and the closure's outcome.  The caller is resumed once, with exactly that outcome:
      its value, or the error it threw. */
  lemma AwaitThrowingTask<V, E, D>(k: A.ContinuationId, s: A.SubscriptionId, p: T.Publisher<V, Error<E>>, d: D, outcome: Result<V, Error<E>>)
    ensures var handed := T.ReceiveSubscriber(p, d);
            var waiting := A.Run(A.Init(), [A.ContinueCalled(k)] + ToAwaitEvents(handed.effects, s));
            var calls := ToPublisherEvents(waiting.effects, s);
            var produced := TT.Run(handed.next, TT.Lift(calls) + [TT.Finish(outcome)]);
            var resumed := A.Run(waiting.next, ToAwaitEvents(produced.effects, s));
            && calls == [T.RequestCalled(Max(1))]
            && A.Resumes(waiting.effects + resumed.effects) == [A.Resume(k, outcome)]
  {
    var handed := T.ReceiveSubscriber(p, d);
    WaitingOnHandOver(k, s, p, d);
    ThrowingRunOnce(p, d, outcome);
    SentIsSeen(d, s, outcome);
    var waiting := A.Run(A.Init(), [A.ContinueCalled(k)] + ToAwaitEvents(handed.effects, s));
    SeenResolves(waiting.next, k, outcome);
    A.ResumesAppend(waiting.effects, A.Run(waiting.next, Seen(outcome)).effects);
    assert A.Resumes(waiting.effects) == [] by {
      assert waiting.effects[1..][1..] == [];
    }
  }

  /** Awaiting a non-throwing task publisher (with its failure type widened to `Error`),
      with every call one side makes fed to the other: a bridge waiting on continuation `k`
      with nothing emitted yet is handed the subscription, asks it for one element, and is
      resumed once, with the closure's value. */
  lemma AwaitTask<V, E, D>(st: A.State<V, E>, k: A.ContinuationId, s: A.SubscriptionId, p: T.Publisher<V, Error<E>>, d: D, v: V)
    requires st.continuation == Some(k) && !st.didEmitValue
    ensures var handed := T.ReceiveSubscriber(p, d);
            var subscribed := A.Run(st, ToAwaitEvents(handed.effects, s));
            var calls := ToPublisherEvents(subscribed.effects, s);
            var produced := T.Run(handed.next, calls + [T.TaskReturned(v)]);
            var resumed := A.Run(subscribed.next, ToAwaitEvents(produced.effects, s));
            && calls == [T.RequestCalled(Max(1))]
            && A.Resumes(subscribed.effects + resumed.effects) == [A.Resume(k, Success(v))]
  {
    var handed := T.ReceiveSubscriber(p, d);
    HandedOver(st, s, p, d);
    var subscribed := A.Run(st, ToAwaitEvents(handed.effects, s));
    var evs := [T.RequestCalled(Max(1)), T.TaskReturned(v)];
    var started := T.Step(handed.next, evs[0]);
    var tail := evs[1..];
    assert tail == [T.TaskReturned(v)];
    assert tail[1..] == [];
    var last := T.Step(started.next, tail[0]);
    assert T.Run(started.next, tail).effects == last.effects + [];
    var produced := T.Run(handed.next, evs);
    var value: T.Effect<V, Error<E>, D> := T.Deliver(d, Value(v));
    var finished: T.Effect<V, Error<E>, D> := T.Deliver(d, Completed(Finished));
    assert produced.effects == [T.StartTask] + Sent<V, E, D>(d, Success(v));
    SentIsSeen<V, E, D>(d, s, Success(v));
    var seen := Seen<V, E>(Success(v));
    assert seen[1..] == [A.CompletionReceived(Finished)];
    A.ResumesFirstDecision(subscribed.next, seen, k);
    A.ResumesAppend(subscribed.effects, A.Run(subscribed.next, seen).effects);
    assert A.Resumes(subscribed.effects) == [] by {
      assert subscribed.effects[1..] == [];
    }
  }

  /** What a bridge that registered `k`, was handed a task publisher's subscription and was
      then cancelled asks of that subscription: one element, then cancellation. */
  lemma CancelledWaitCalls<V, E, D>(k: A.ContinuationId, s: A.SubscriptionId, p: T.Publisher<V, Error<E>>, d: D)
    ensures var waiting := A.Run(A.Init(), [A.ContinueCalled(k)] + ToAwaitEvents(T.ReceiveSubscriber(p, d).effects, s));
            var cancelled := A.Cancel(waiting.next);
            cancelled.effects == [A.CancelSubscription(s)]
            && ToPublisherEvents(waiting.effects + cancelled.effects, s) == [T.RequestCalled(Max(1)), T.CancelCalled]
  {
    WaitingOnHandOver(k, s, p, d);
    var waiting := A.Run(A.Init(), [A.ContinueCalled(k)] + ToAwaitEvents(T.ReceiveSubscriber(p, d).effects, s));
    var cancelled := A.Cancel(waiting.next);
    var all := waiting.effects + cancelled.effects;
    assert all == [A.Subscribe, A.Request(s, Max(1)), A.CancelSubscription(s)];
    assert all[1..][1..][1..] == [];
    assert ToPublisherEvents(all[1..][1..], s) == [T.CancelCalled];
    assert ToPublisherEvents(all[1..], s) == [T.RequestCalled(Max(1)), T.CancelCalled];
  }

  /** What the throwing publisher's subscription does when asked for one element, then
      cancelled, and only then reached by the closure's outcome. */
  lemma CancelledTaskRun<V, E, D>(p: T.Publisher<V, Error<E>>, d: D, outcome: Result<V, Error<E>>)
    ensures TT.Run(T.ReceiveSubscriber(p, d).next, [TT.RequestCalled(Max(1)), TT.CancelCalled, TT.Finish(outcome)]).effects
            == [T.StartTask, T.CancelTask]
  {
    var sub := T.ReceiveSubscriber(p, d).next;
    var pevs := [TT.RequestCalled(Max(1)), TT.CancelCalled, TT.Finish(outcome)];
    var started := TT.Step(sub, pevs[0]);
    assert pevs[1..] == [TT.CancelCalled, TT.Finish(outcome)];
    ThrowingRunPair(started.next, TT.CancelCalled, TT.Finish(outcome));
  }

  /** A caller that cancels after subscribing and before the closure finishes, with every
      call one side makes fed to the other: the bridge cancels its subscription once, that
      cancel reaches the subscription, which cancels the task and detaches, the late
      outcome reaches nobody, and the caller is never resumed, whatever else arrives. */
  lemma CancelledWaitResolvesNothing<V, E, D>(k: A.ContinuationId, s: A.SubscriptionId, p: T.Publisher<V, Error<E>>, d: D,
                                              outcome: Result<V, Error<E>>, later: seq<A.Event<V, E>>)
    requires A.NoContinue(later)
    ensures var handed := T.ReceiveSubscriber(p, d);
            var waiting := A.Run(A.Init(), [A.ContinueCalled(k)] + ToAwaitEvents(handed.effects, s));
            var cancelled := A.Cancel(waiting.next);
            var calls := ToPublisherEvents(waiting.effects + cancelled.effects, s);
            var produced := TT.Run(handed.next, TT.Lift(calls) + [TT.Finish(outcome)]);
            && cancelled.effects == [A.CancelSubscription(s)]
            && calls == [T.RequestCalled(Max(1)), T.CancelCalled]
            && produced.effects == [T.StartTask, T.CancelTask]
            && A.Resumes(A.Run(cancelled.next, ToAwaitEvents(produced.effects, s) + later).effects) == []
  {
    CancelledWaitCalls(k, s, p, d);
    CancelledTaskRun(p, d, outcome);
    var calls: seq<T.Event<V>> := [T.RequestCalled(Max(1)), T.CancelCalled];
    var lifted: seq<TT.Event<V, Error<E>>> := TT.Lift(calls);
    assert calls[1..][1..] == [];
    assert lifted == [TT.RequestCalled(Max(1)), TT.CancelCalled];
    var waiting := A.Run(A.Init(), [A.ContinueCalled(k)] + ToAwaitEvents(T.ReceiveSubscriber(p, d).effects, s));
    var cancelled := A.Cancel(waiting.next);
    var produced: seq<T.Effect<V, Error<E>, D>> := [T.StartTask, T.CancelTask];
    assert produced[1..][1..] == [];
    assert ToAwaitEvents(produced, s) == [];
    assert ToAwaitEvents(produced, s) + later == later;
    A.Quiescent(cancelled.next, later);
  }
}
