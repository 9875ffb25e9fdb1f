/** `Subscribers.Await` (Sources/CombineAsyncually/Subscriber+Await.swift):
    the one-shot subscriber that turns the first output of a publisher into a
    single `Result` handed to a continuation.  The upstream publisher, the
    subscription it hands back and the continuation closure are external; the
    model keeps their identities and records every call made on them as an
    effect. */
module Await {
  import opened Combine

  /** Identity of a `Combine.Subscription` received from upstream. */
  type SubscriptionId = nat

  /** Identity of a continuation closure passed to `continue(with:)`. */
  type ContinuationId = nat

  /** The mutable fields of one `Await<Input>` instance, whose input type is `V` and whose
      failures are `Error<E>`.  No field holds a `V` or an `E`; the parameters are there, as
      on the generic Swift class, so that a state fixes the types of the values and errors
      its handlers pass on, and every handler's types follow from its arguments. */
  datatype State<V, E> = State(
    upstreamSubscription: Option<SubscriptionId>,
    didEmitValue: bool,
    continuation: Option<ContinuationId>)

  /** Calls the bridge makes on its collaborators. */
  datatype Effect<+V, +E> =
    | Subscribe                                             // upstream.subscribe(self)
    | Request(subscription: SubscriptionId, demand: Demand)  // subscription.request(_:)
    | CancelSubscription(subscription: SubscriptionId)      // subscription.cancel()
    | Resume(continuation: ContinuationId, result: Result<V, Error<E>>)  // continuation(result)

  /** Calls made on the bridge, each modelled as one atomic step. */
  datatype Event<+V, +E> =
    | ContinueCalled(continuation: ContinuationId)
    | SubscriptionReceived(subscription: SubscriptionId)
    | InputReceived(input: V)
    | CompletionReceived(completion: Completion<Error<E>>)
    | CancelCalled

  /** The state `init(upstream:)` leaves (the field defaults): no subscription, nothing
      emitted, no continuation.  `NothingBeforeContinue` states what this means. */
  function Init<V, E>(): State<V, E> {
    State(None, false, None)
  }

  /** `continuation?(result)`: invoke the continuation when one is held. */
  function ResumeIfHeld<V, E>(continuation: Option<ContinuationId>, result: Result<V, Error<E>>): seq<Effect<V, E>> {
    match continuation
    case None => []
    case Some(k) => [Resume(k, result)]
  }

  /** `cleanup()`: drop the subscription and the continuation; `didEmitValue` stays. */
  function Cleanup<V, E>(st: State<V, E>): State<V, E> {
    st.(upstreamSubscription := None, continuation := None)
  }

  /** The error a completion that arrives before any value resolves with. */
  function CompletionError<E>(c: Completion<Error<E>>): (e: Error<E>)
    ensures c.Finished? ==> e == UpstreamDidNotEmitValue
    ensures c.Failure? ==> e == c.error
  {
    match c
    case Finished => UpstreamDidNotEmitValue
    case Failure(err) => err
  }

  /** `continue(with:)`: store the continuation (replacing any earlier one) and subscribe upstream. */
  function Continue<V, E>(st: State<V, E>, k: ContinuationId): (t: Transition<State<V, E>, Effect<V, E>>)
    ensures t.next.continuation == Some(k)
    ensures t.next.upstreamSubscription == st.upstreamSubscription
    ensures t.next.didEmitValue == st.didEmitValue
    ensures t.effects == [Subscribe]
  {
    Transition(st.(continuation := Some(k)), [Subscribe])
  }

  /** The part of `cancel()` that runs under `upstreamLock`: cancel the held subscription,
      if any.  The state is not touched yet; `cleanup()` follows outside the lock. */
  function CancelLocked<V, E>(st: State<V, E>): (t: Transition<State<V, E>, Effect<V, E>>)
    ensures t.next == st
    ensures st.upstreamSubscription.None? ==> t.effects == []
    ensures st.upstreamSubscription.Some? ==> t.effects == [CancelSubscription(st.upstreamSubscription.value)]
  {
    var cancelled := match st.upstreamSubscription
      case None => []
      case Some(s) => [CancelSubscription(s)];
    Transition(st, cancelled)
  }

  /** `cancel()`: cancel the held subscription, if any, then clean up without resuming. */
  function Cancel<V, E>(st: State<V, E>): (t: Transition<State<V, E>, Effect<V, E>>)
    ensures t.next.upstreamSubscription == None && t.next.continuation == None
    ensures t.next.didEmitValue == st.didEmitValue
    ensures st.upstreamSubscription.None? ==> t.effects == []
    ensures st.upstreamSubscription.Some? ==> t.effects == [CancelSubscription(st.upstreamSubscription.value)]
    ensures forall i :: 0 <= i < |t.effects| ==> !t.effects[i].Resume?
  {
    var locked := CancelLocked(st);
    Transition(Cleanup(locked.next), locked.effects)
  }

  /** `receive(subscription:)`: store the subscription and ask it for exactly one element. */
  function ReceiveSubscription<V, E>(st: State<V, E>, s: SubscriptionId): (t: Transition<State<V, E>, Effect<V, E>>)
    ensures t.next.upstreamSubscription == Some(s)
    ensures t.next.didEmitValue == st.didEmitValue && t.next.continuation == st.continuation
    ensures t.effects == [Request(s, Max(1))]
  {
    Transition(st.(upstreamSubscription := Some(s)), [Request(s, Max(1))])
  }

  /** `receive(_:)`: the first value resumes the continuation with `.success`; any later
      value is dropped.  The demand returned is `.none` either way. */
  function ReceiveInput<V, E>(st: State<V, E>, v: V): (r: (Transition<State<V, E>, Effect<V, E>>, Demand))
    ensures r.1 == NoDemand
    ensures st.didEmitValue ==> r.0.next == st && r.0.effects == []
    ensures !st.didEmitValue ==> r.0.next == State(None, true, None)
    ensures !st.didEmitValue && st.continuation.None? ==> r.0.effects == []
    ensures !st.didEmitValue && st.continuation.Some? ==>
              r.0.effects == [Resume(st.continuation.value, Success(v))]
  {
    if st.didEmitValue then
      (Transition(st, []), NoDemand)
    else
      var emitted := st.(didEmitValue := true);
      (Transition(Cleanup(emitted), ResumeIfHeld(st.continuation, Success(v))), NoDemand)
  }

  /** The part of `receive(completion:)` that runs under `emitLock`: before any value,
      resume with `.failure`, mapping `.finished` to `upstreamDidNotEmitValue`; after a
      value, resume nothing.  The state is not touched; `cleanup()` follows outside the lock. */
  function CompletionLocked<V, E>(st: State<V, E>, c: Completion<Error<E>>): (t: Transition<State<V, E>, Effect<V, E>>)
    ensures t.next == st
    ensures st.didEmitValue || st.continuation.None? ==> t.effects == []
    ensures !st.didEmitValue && st.continuation.Some? ==>
              t.effects == [Resume(st.continuation.value, Failed(CompletionError(c)))]
  {
    var resumed := if st.didEmitValue then [] else ResumeIfHeld(st.continuation, Failed(CompletionError(c)));
    Transition(st, resumed)
  }

  /** `receive(completion:)`: the locked part, then `cleanup()` on both paths. */
  function ReceiveCompletion<V, E>(st: State<V, E>, c: Completion<Error<E>>): (t: Transition<State<V, E>, Effect<V, E>>)
    ensures t.next.upstreamSubscription == None && t.next.continuation == None
    ensures t.next.didEmitValue == st.didEmitValue
    ensures st.didEmitValue || st.continuation.None? ==> t.effects == []
    ensures !st.didEmitValue && st.continuation.Some? && c.Finished? ==>
              t.effects == [Resume(st.continuation.value, Failed(UpstreamDidNotEmitValue))]
    ensures !st.didEmitValue && st.continuation.Some? && c.Failure? ==>
              t.effects == [Resume(st.continuation.value, Failed(c.error))]
  {
    var locked := CompletionLocked(st, c);
    Transition(Cleanup(locked.next), locked.effects)
  }

  function Step<V, E>(st: State<V, E>, ev: Event<V, E>): Transition<State<V, E>, Effect<V, E>> {
    match ev
    case ContinueCalled(k) => Continue(st, k)
    case SubscriptionReceived(s) => ReceiveSubscription(st, s)
    case InputReceived(v) => ReceiveInput(st, v).0
    case CompletionReceived(c) => ReceiveCompletion(st, c)
    case CancelCalled => Cancel(st)
  }

  /** Handle the events one after another, concatenating their effects. */
  function Run<V, E>(st: State<V, E>, evs: seq<Event<V, E>>): Transition<State<V, E>, Effect<V, E>>
    decreases |evs|
  {
    if evs == [] then Transition(st, [])
    else
      var first := Step(st, evs[0]);
      var rest := Run(first.next, evs[1..]);
      Transition(rest.next, first.effects + rest.effects)
  }

  // ----- Observations over logs -----

  /** The continuation invocations in an effect log, in order. */
  function Resumes<V, E>(effects: seq<Effect<V, E>>): seq<Effect<V, E>> {
    if effects == [] then []
    else (if effects[0].Resume? then [effects[0]] else []) + Resumes(effects[1..])
  }

  /** How many times continuation `k` is invoked in an effect log. */
  function ResumeCount<V, E>(k: ContinuationId, effects: seq<Effect<V, E>>): nat {
    if effects == [] then 0
    else (if effects[0].Resume? && effects[0].continuation == k then 1 else 0) + ResumeCount(k, effects[1..])
  }

  /** How many times `continue(with:)` registers continuation `k` in an event sequence. */
  function ContinueCount<V, E>(k: ContinuationId, evs: seq<Event<V, E>>): nat {
    if evs == [] then 0
    else (if evs[0] == ContinueCalled(k) then 1 else 0) + ContinueCount(k, evs[1..])
  }

  predicate NoContinue<V, E>(evs: seq<Event<V, E>>) {
    forall i :: 0 <= i < |evs| ==> !evs[i].ContinueCalled?
  }

  function Holds<V, E>(st: State<V, E>, k: ContinuationId): nat {
    if st.continuation == Some(k) then 1 else 0
  }

  lemma ResumesAppend<V, E>(a: seq<Effect<V, E>>, b: seq<Effect<V, E>>)
    ensures Resumes(a + b) == Resumes(a) + Resumes(b)
  {
    if a != [] {
      assert (a + b)[1..] == a[1..] + b;
      ResumesAppend(a[1..], b);
    } else {
      assert a + b == b;
    }
  }

  lemma ResumeCountAppend<V, E>(k: ContinuationId, a: seq<Effect<V, E>>, b: seq<Effect<V, E>>)
    ensures ResumeCount(k, a + b) == ResumeCount(k, a) + ResumeCount(k, b)
  {
    if a != [] {
      assert (a + b)[1..] == a[1..] + b;
      ResumeCountAppend(k, a[1..], b);
    } else {
      assert a + b == b;
    }
  }

  // ----- Properties of event sequences -----

  /** Over any sequence of calls, continuation `k` is invoked no more often than it was
      registered: every invocation consumes the registration, because `cleanup` runs
      right after it. */
  lemma {:induction false} ResumesBoundedByRegistrations<V, E>(st: State<V, E>, evs: seq<Event<V, E>>, k: ContinuationId)
    ensures ResumeCount(k, Run(st, evs).effects) + Holds(Run(st, evs).next, k)
            <= ContinueCount(k, evs) + Holds(st, k)
    decreases |evs|
  {
    if evs != [] {
      var first := Step(st, evs[0]);
      // a step resumes `k` only by consuming the hold on `k`, and gains one only from `continue(with: k)`
      assert ResumeCount(k, first.effects) + Holds(first.next, k)
             <= (if evs[0] == ContinueCalled(k) then 1 else 0) + Holds(st, k);
      ResumesBoundedByRegistrations(first.next, evs[1..], k);
      ResumeCountAppend(k, first.effects, Run(first.next, evs[1..]).effects);
    }
  }

  /** A continuation registered once is invoked at most once, whatever the upstream does
      (repeated values, values after completion, completions racing with `cancel`). */
  lemma ResumedAtMostOnce<V, E>(evs: seq<Event<V, E>>, k: ContinuationId)
    requires ContinueCount(k, evs) <= 1
    ensures ResumeCount(k, Run(Init(), evs).effects) <= 1
  {
    ResumesBoundedByRegistrations(Init(), evs, k);
  }

  /** With no continuation held and no new one registered, nothing is ever resumed. */
  lemma {:induction false} Quiescent<V, E>(st: State<V, E>, evs: seq<Event<V, E>>)
    requires st.continuation.None?
    requires NoContinue(evs)
    ensures Resumes(Run(st, evs).effects) == []
    ensures Run(st, evs).next.continuation.None?
    decreases |evs|
  {
    if evs != [] {
      var first := Step(st, evs[0]);
      assert !evs[0].ContinueCalled?;
      assert Resumes(first.effects) == [] by {
        match evs[0]
        case SubscriptionReceived(s) =>
        case InputReceived(v) =>
        case CompletionReceived(c) =>
        case CancelCalled =>
      }
      Quiescent(first.next, evs[1..]);
      ResumesAppend(first.effects, Run(first.next, evs[1..]).effects);
    }
  }

  /** After `cancel()` nothing is ever resumed unless a new continuation is registered. */
  lemma NothingAfterCancel<V, E>(st: State<V, E>, evs: seq<Event<V, E>>)
    requires NoContinue(evs)
    ensures Resumes(Run(st, [CancelCalled] + evs).effects) == []
  {
    var c := Cancel(st);
    assert ([CancelCalled] + evs)[1..] == evs;
    Quiescent(c.next, evs);
    ResumesAppend(c.effects, Run(c.next, evs).effects);
    assert Resumes(c.effects) == [] by {
      if st.upstreamSubscription.Some? {
        assert c.effects == [CancelSubscription(st.upstreamSubscription.value)];
      }
    }
  }

  /** Reference semantics for a single waiting caller: the first value, completion or
      cancellation decides; a value yields `.success`, `.finished` yields
      `upstreamDidNotEmitValue`, `.failure(e)` yields exactly `e`, and `cancel` yields no
      resolution at all.  Subscriptions do not decide anything; an empty or undecided
      sequence leaves the caller suspended (`None`). */
  function Decide<V, E>(evs: seq<Event<V, E>>): Option<Result<V, Error<E>>>
    decreases |evs|
  {
    if evs == [] then None
    else
      match evs[0]
      case InputReceived(v) => Some(Success(v))
      case CompletionReceived(Finished) => Some(Failed(UpstreamDidNotEmitValue))
      case CompletionReceived(Failure(e)) => Some(Failed(e))
      case CancelCalled => None
      case SubscriptionReceived(_) => Decide(evs[1..])
      case ContinueCalled(_) => Decide(evs[1..])
  }

  /** The resumptions the reference semantics predicts for continuation `k`. */
  function Expected<V, E>(k: ContinuationId, outcome: Option<Result<V, Error<E>>>): seq<Effect<V, E>> {
    match outcome
    case None => []
    case Some(r) => [Resume(k, r)]
  }

  /** While a caller waits and nothing has been emitted, the bridge resumes it exactly as
      the reference semantics says: once with the first decisive signal, or never. */
  lemma {:induction false} ResumesFirstDecision<V, E>(st: State<V, E>, evs: seq<Event<V, E>>, k: ContinuationId)
    requires st.continuation == Some(k) && !st.didEmitValue
    requires NoContinue(evs)
    ensures Resumes(Run(st, evs).effects) == Expected(k, Decide(evs))
    decreases |evs|
  {
    if evs != [] {
      var first := Step(st, evs[0]);
      var rest := Run(first.next, evs[1..]);
      assert NoContinue(evs[1..]) by {
        forall i | 0 <= i < |evs[1..]| ensures !evs[1..][i].ContinueCalled? {
          assert evs[1..][i] == evs[i + 1];
        }
      }
      ResumesAppend(first.effects, rest.effects);
      match evs[0]
      case SubscriptionReceived(s) =>
        ResumesFirstDecision(first.next, evs[1..], k);
      case InputReceived(v) =>
        Quiescent(first.next, evs[1..]);
      case CompletionReceived(c) =>
        Quiescent(first.next, evs[1..]);
      case CancelCalled =>
        Quiescent(first.next, evs[1..]);
    }
  }

  /** `continue(with: k)` on a fresh bridge followed by any upstream behaviour: the caller
      sees the first value, the upstream failure, `upstreamDidNotEmitValue` for an empty
      upstream, or nothing when cancelled first. */
  lemma AwaitOnce<V, E>(k: ContinuationId, evs: seq<Event<V, E>>)
    requires NoContinue(evs)
    ensures Resumes(Run(Init(), [ContinueCalled(k)] + evs).effects) == Expected(k, Decide(evs))
  {
    var c := Continue(Init(), k);
    assert ([ContinueCalled(k)] + evs)[1..] == evs;
    ResumesFirstDecision(c.next, evs, k);
    ResumesAppend(c.effects, Run(c.next, evs).effects);
  }

  /** The bridge never asks an upstream for more than one element. */
  lemma {:induction false} RequestsAskForOne<V, E>(st: State<V, E>, evs: seq<Event<V, E>>)
    ensures forall i :: 0 <= i < |Run(st, evs).effects| && Run(st, evs).effects[i].Request? ==>
              Run(st, evs).effects[i].demand == Max(1)
    decreases |evs|
  {
    if evs != [] {
      var first := Step(st, evs[0]);
      RequestsAskForOne(first.next, evs[1..]);
      var rest := Run(first.next, evs[1..]);
      assert forall i :: 0 <= i < |first.effects| && first.effects[i].Request? ==> first.effects[i].demand == Max(1);
      forall i | 0 <= i < |first.effects + rest.effects| && (first.effects + rest.effects)[i].Request?
        ensures (first.effects + rest.effects)[i].demand == Max(1)
      {
        if i >= |first.effects| {
          assert (first.effects + rest.effects)[i] == rest.effects[i - |first.effects|];
        }
      }
    }
  }

  /** `cancel()` only cancels a subscription already received: one that arrives after
      the cancel is still stored and asked for an element, and nothing cancels it. */
  lemma SubscriptionAfterCancelIsKept<V, E>(st: State<V, E>, s: SubscriptionId)
    ensures var t := Run(st, [CancelCalled, SubscriptionReceived(s)]);
            t.effects == Cancel(st).effects + [Request(s, Max(1))]
            && t.next.upstreamSubscription == Some(s) && t.next.continuation.None?
  {
    var evs: seq<Event<V, E>> := [CancelCalled, SubscriptionReceived(s)];
    assert evs[1..] == [SubscriptionReceived(s)];
    assert evs[1..][1..] == [];
    var cancelled := Cancel(st);
    var late := ReceiveSubscription(cancelled.next, s);
    assert Run(late.next, evs[1..][1..]) == Transition(late.next, []);
    assert Run(cancelled.next, evs[1..]) == Transition(late.next, late.effects + []);
  }

  /** `init(upstream:)` does no work: until `continue(with:)` is called, the bridge neither
      subscribes upstream nor resumes anyone, whatever else is called on it. */
  lemma NothingBeforeContinue<V, E>(evs: seq<Event<V, E>>)
    requires NoContinue(evs)
    ensures Resumes(Run(Init(), evs).effects) == []
    ensures NoSubscribe(Run(Init(), evs).effects)
  {
    Quiescent(Init(), evs);
    SubscribesOnlyOnContinue(Init(), evs);
  }

  predicate NoSubscribe<V, E>(effects: seq<Effect<V, E>>) {
    forall i :: 0 <= i < |effects| ==> !effects[i].Subscribe?
  }

  /** `upstream.subscribe(self)` is called by `continue(with:)` and by nothing else. */
  lemma {:induction false} SubscribesOnlyOnContinue<V, E>(st: State<V, E>, evs: seq<Event<V, E>>)
    requires NoContinue(evs)
    ensures NoSubscribe(Run(st, evs).effects)
    decreases |evs|
  {
    if evs != [] {
      var first := Step(st, evs[0]);
      var rest := Run(first.next, evs[1..]);
      assert !evs[0].ContinueCalled?;
      assert NoContinue(evs[1..]) by {
        forall i | 0 <= i < |evs[1..]| ensures !evs[1..][i].ContinueCalled? {
          assert evs[1..][i] == evs[i + 1];
        }
      }
      SubscribesOnlyOnContinue(first.next, evs[1..]);
      assert NoSubscribe(first.effects);
      forall i | 0 <= i < |first.effects + rest.effects|
        ensures !(first.effects + rest.effects)[i].Subscribe?
      {
        if i >= |first.effects| {
          assert (first.effects + rest.effects)[i] == rest.effects[i - |first.effects|];
        }
      }
    }
  }

  /** `get()` cancelled after it subscribed: `cancel()` clears the continuation without
      invoking it, so the caller is never resumed by anything that arrives later, unless a
      new continuation is registered.  The awaiting task stays suspended. */
  lemma CancelledWaitNeverResumes<V, E>(k: ContinuationId, s: SubscriptionId, later: seq<Event<V, E>>)
    requires NoContinue(later)
    ensures Resumes(Run(Init(), [ContinueCalled(k), SubscriptionReceived(s), CancelCalled] + later).effects) == []
  {
    var evs: seq<Event<V, E>> := [ContinueCalled(k), SubscriptionReceived(s)];
    var waiting := Run(Init(), evs);
    var c := Continue(Init(), k);
    var r := ReceiveSubscription(c.next, s);
    assert evs[1..] == [SubscriptionReceived(s)] && evs[1..][1..] == [];
    assert Run(r.next, evs[1..][1..]) == Transition(r.next, []);
    assert Run(c.next, evs[1..]) == Transition(r.next, r.effects + []);
    assert waiting == Transition(r.next, c.effects + (r.effects + []));
    RunAppend(Init(), evs, [CancelCalled] + later);
    assert evs + ([CancelCalled] + later) == [ContinueCalled(k), SubscriptionReceived(s), CancelCalled] + later;
    NothingAfterCancel(waiting.next, later);
    ResumesAppend(waiting.effects, Run(waiting.next, [CancelCalled] + later).effects);
    assert Resumes(waiting.effects) == [] by {
      assert waiting.effects == [Subscribe, Request(s, Max(1))];
      assert waiting.effects[1..][1..] == [];
    }
  }

  /** Running two sequences is running one after the other. */
  lemma {:induction false} RunAppend<V, E>(st: State<V, E>, a: seq<Event<V, E>>, b: seq<Event<V, E>>)
    ensures Run(st, a + b) == Transition(Run(Run(st, a).next, b).next, Run(st, a).effects + Run(Run(st, a).next, b).effects)
    decreases |a|
  {
    if a == [] {
      assert a + b == b;
    } else {
      var first := Step(st, a[0]);
      assert (a + b)[0] == a[0];
      assert (a + b)[1..] == a[1..] + b;
      RunAppend(first.next, a[1..], b);
    }
  }

  /** Once a value has been emitted nothing is ever resumed again, whatever arrives, new
      continuations included: `didEmitValue` is never reset. */
  lemma {:induction false} EmittedResumesNothing<V, E>(st: State<V, E>, evs: seq<Event<V, E>>)
    requires st.didEmitValue
    ensures Resumes(Run(st, evs).effects) == []
    ensures Run(st, evs).next.didEmitValue
    decreases |evs|
  {
    if evs != [] {
      var first := Step(st, evs[0]);
      assert Resumes(first.effects) == [] by {
        match evs[0]
        case ContinueCalled(k) =>
        case SubscriptionReceived(s) =>
        case InputReceived(v) =>
        case CompletionReceived(c) =>
        case CancelCalled =>
          if st.upstreamSubscription.Some? {
            assert first.effects == [CancelSubscription(st.upstreamSubscription.value)];
          }
      }
      EmittedResumesNothing(first.next, evs[1..]);
      ResumesAppend(first.effects, Run(first.next, evs[1..]).effects);
    }
  }

  /** `cancel()` does not stop a later `continue(with:)`: it leaves no subscription and no
      continuation, so a new continuation re-arms the bridge and is resumed exactly as the
      reference semantics says, unless a value was emitted before the cancel.  This is
      what `get()` meets when its cancellation handler runs before its operation. */
  lemma ContinueAfterCancelRearms<V, E>(st: State<V, E>, k: ContinuationId, evs: seq<Event<V, E>>)
    requires NoContinue(evs)
    ensures Resumes(Run(st, [CancelCalled, ContinueCalled(k)] + evs).effects)
            == if st.didEmitValue then [] else Expected(k, Decide(evs))
  {
    var all := [CancelCalled, ContinueCalled(k)] + evs;
    var c := Cancel(st);
    var r := Continue(c.next, k);
    assert all[1..] == [ContinueCalled(k)] + evs;
    assert all[1..][1..] == evs;
    ResumesAppend(c.effects, Run(c.next, all[1..]).effects);
    ResumesAppend(r.effects, Run(r.next, evs).effects);
    assert Resumes(c.effects) == [] by {
      if st.upstreamSubscription.Some? {
        assert c.effects == [CancelSubscription(st.upstreamSubscription.value)];
      }
    }
    if st.didEmitValue {
      EmittedResumesNothing(r.next, evs);
    } else {
      ResumesFirstDecision(r.next, evs, k);
    }
  }

  /** Per continuation, `cancel()` leaves nothing owed: afterwards a continuation is invoked
      no more often than it is registered again. */
  lemma ResumesAfterCancelBounded<V, E>(st: State<V, E>, evs: seq<Event<V, E>>, k: ContinuationId)
    ensures ResumeCount(k, Run(st, [CancelCalled] + evs).effects) <= ContinueCount(k, evs)
  {
    var c := Cancel(st);
    assert ([CancelCalled] + evs)[1..] == evs;
    ResumesBoundedByRegistrations(c.next, evs, k);
    ResumeCountAppend(k, c.effects, Run(c.next, evs).effects);
    assert ResumeCount(k, c.effects) == 0 by {
      if st.upstreamSubscription.Some? {
        assert c.effects == [CancelSubscription(st.upstreamSubscription.value)];
      }
    }
  }

  // ----- Handlers that overlap -----
  // `cancel()` holds `upstreamLock` while `receive(_:)` and `receive(completion:)` hold
  // `emitLock`, and `cleanup()` runs outside both, so these handlers are not mutually
  // exclusive.  The lemmas below take the handlers apart at their lock boundaries and
  // exhibit what the atomic steps above rule out.

  /** A `cancel()` whose locked part has run, overtaken by a value before its `cleanup()`:
      the caller is resumed with the value after its subscription was cancelled, where
      the atomic `cancel()` lets nothing through. */
  lemma CancelOvertakenByValue<V, E>(st: State<V, E>, k: ContinuationId, v: V)
    requires st.upstreamSubscription.Some? && st.continuation == Some(k) && !st.didEmitValue
    ensures var locked := CancelLocked(st);
            var input := ReceiveInput(locked.next, v).0;
            locked.effects + input.effects
              == [CancelSubscription(st.upstreamSubscription.value), Resume(k, Success(v))]
    ensures Resumes(Run(st, [CancelCalled, InputReceived(v)]).effects) == []
  {
    var evs: seq<Event<V, E>> := [InputReceived(v)];
    NothingAfterCancel(st, evs);
    assert [CancelCalled] + evs == [CancelCalled, InputReceived(v)];
  }

  /** A completion whose locked part has run, overtaken by a value before its `cleanup()`:
      the caller is resumed twice, where the atomic handlers resume it at most once.  A
      publisher that keeps Combine's contract sends no value after its completion, so
      only a misbehaving upstream can do this. */
  lemma CompletionOvertakenByValue<V, E>(st: State<V, E>, k: ContinuationId, c: Completion<Error<E>>, v: V)
    requires st.continuation == Some(k) && !st.didEmitValue
    ensures var locked := CompletionLocked(st, c);
            var input := ReceiveInput(locked.next, v).0;
            ResumeCount(k, locked.effects + input.effects) == 2
    ensures ResumeCount(k, Run(st, [CompletionReceived(c), InputReceived(v)]).effects) <= 1
  {
    var locked := CompletionLocked(st, c);
    var input := ReceiveInput(locked.next, v).0;
    var both := locked.effects + input.effects;
    assert both == [Resume(k, Failed(CompletionError(c))), Resume(k, Success(v))];
    assert both[1..][1..] == [];
    assert ResumeCount(k, both[1..]) == 1;
    var evs: seq<Event<V, E>> := [CompletionReceived(c), InputReceived(v)];
    ResumesBoundedByRegistrations(st, evs, k);
    assert evs[1..][1..] == [];
    assert ContinueCount(k, evs[1..]) == 0;
    assert Holds(st, k) == 1;
  }
}
