/**
 * The decision logic of a LifecycleEventDispatcher, as functions on values.
 *
 * A dispatcher holds an optional listener, the storeWhileInactive flag fixed at creation,
 * a FIFO queue of pending events and a destroyed flag. Whether an event is delivered,
 * queued or dropped depends on that state and on whether its lifecycle is active.
 * The classes in module Lifecycle and LegacyFramework are specified by these functions.
 */
module DispatchSpec {
  import opened Wrappers
  import opened Seqs

  /** The event type. The source is generic in it; the model fixes one. */
  type Event = int

  /** Identity of a listener or callback object supplied by a client. */
  type ListenerId = nat

  /** One call listener.onEvent(event). */
  datatype Delivery = Delivery(listener: ListenerId, event: Event)

  datatype DispatcherState = DispatcherState(
    listener: Option<ListenerId>,
    storeWhileInactive: bool,
    pending: seq<Event>,
    destroyed: bool)

  /** The state an operation leaves behind and the deliveries it made, in call order. */
  datatype Step = Step(state: DispatcherState, out: seq<Delivery>)

  /** A fresh dispatcher: no listener, empty queue, not destroyed. */
  function NewDispatcher(storeWhileInactive: bool): (r: DispatcherState)
    ensures r.storeWhileInactive == storeWhileInactive && !r.destroyed && PendingOnlyWhenStoring(r)
    ensures forall active :: !Ready(active, r)
  {
    DispatcherState(None, storeWhileInactive, [], false)
  }

  /** readyForEvent: the lifecycle is active and a listener is present. */
  predicate Ready(active: bool, d: DispatcherState)
  {
    active && d.listener.Some?
  }

  /** The invariant the dispatcher keeps: only a storing dispatcher ever has pending events. */
  predicate PendingOnlyWhenStoring(d: DispatcherState)
  {
    d.pending != [] ==> d.storeWhileInactive
  }

  /** The calls listener.onEvent(e) for the events es, one per event, in order. */
  function Deliveries(l: ListenerId, es: seq<Event>): (r: seq<Delivery>)
    ensures |r| == |es|
    ensures forall i :: 0 <= i < |es| ==> r[i] == Delivery(l, es[i])
  {
    if es == [] then [] else [Delivery(l, es[0])] + Deliveries(l, es[1..])
  }

  /** dispatchPendingIfReady: when ready, every pending event goes to the listener and the queue empties. */
  function Drain(active: bool, d: DispatcherState): (r: Step)
    ensures r.state == d.(pending := r.state.pending)
    ensures |r.out| + |r.state.pending| == |d.pending|
    ensures Ready(active, d) ==> r.state.pending == []
    ensures r.out != [] ==> Ready(active, d)
  {
    if Ready(active, d) then Step(d.(pending := []), Deliveries(d.listener.value, d.pending))
    else Step(d, [])
  }

  /** setListener: replace the listener, then drain if now ready. */
  function WithListener(active: bool, d: DispatcherState, l: Option<ListenerId>): (r: Step)
    ensures r.state.listener == l && r.state.(pending := d.pending, listener := d.listener) == d
    ensures |r.out| + |r.state.pending| == |d.pending|
    ensures Ready(active, r.state) ==> r.state.pending == []
  {
    Drain(active, d.(listener := l))
  }

  /** postEventSync: drop when destroyed, deliver when ready, else queue or drop by storeWhileInactive. */
  function Post(active: bool, d: DispatcherState, e: Event): Step
  {
    if d.destroyed then Step(d, [])
    else if Ready(active, d) then Step(d, [Delivery(d.listener.value, e)])
    else if d.storeWhileInactive then Step(d.(pending := d.pending + [e]), [])
    else Step(d, [])
  }

  /** Posting the events es one after another while the lifecycle's active flag stays the same. */
  function PostAll(active: bool, d: DispatcherState, es: seq<Event>): Step
    decreases |es|
  {
    if es == [] then Step(d, [])
    else
      var first := Post(active, d, es[0]);
      var rest := PostAll(active, first.state, es[1..]);
      Step(rest.state, first.out + rest.out)
  }

  /** onDestroy: destroyed, and listener and queue released. */
  function Destroyed(d: DispatcherState): (r: DispatcherState)
    ensures r.destroyed && r.pending == [] && r.storeWhileInactive == d.storeWhileInactive
    ensures forall active :: !Ready(active, r)
  {
    DispatcherState(None, d.storeWhileInactive, [], true)
  }

  // ---------------------------------------------------------------------------
  // Properties of one step

  /** Every operation keeps the invariant that only a storing dispatcher has pending events,
      and none of them changes storeWhileInactive. */
  lemma InvariantPreserved(active: bool, d: DispatcherState, e: Event, l: Option<ListenerId>)
    requires PendingOnlyWhenStoring(d)
    ensures PendingOnlyWhenStoring(Post(active, d, e).state)
    ensures PendingOnlyWhenStoring(Drain(active, d).state)
    ensures PendingOnlyWhenStoring(WithListener(active, d, l).state)
    ensures PendingOnlyWhenStoring(Destroyed(d))
    ensures PendingOnlyWhenStoring(NewDispatcher(d.storeWhileInactive))
    ensures Post(active, d, e).state.storeWhileInactive == d.storeWhileInactive
    ensures WithListener(active, d, l).state.storeWhileInactive == d.storeWhileInactive
  {
  }

  /** What becomes of a posted event: at most one delivery, of that event to the current listener;
      a delivery exactly when the dispatcher is live and ready; the queue grows, by the event at
      its tail, exactly when it is live, not ready and storing; in every other case the event is
      dropped. Nothing but the queue ever changes. */
  lemma PostFate(active: bool, d: DispatcherState, e: Event)
    ensures var r := Post(active, d, e);
      && r.state == d.(pending := r.state.pending)
      && |r.out| <= 1
      && (forall x :: x in r.out ==> x.event == e && Some(x.listener) == d.listener)
      && (r.out != [] <==> !d.destroyed && Ready(active, d))
      && (r.state.pending != d.pending <==> !d.destroyed && !Ready(active, d) && d.storeWhileInactive)
      && (r.state.pending != d.pending ==> r.state.pending == d.pending + [e])
  {
  }

  /** Draining twice is draining once: the second pass finds the queue empty or the dispatcher not ready. */
  lemma DrainIdempotent(active: bool, d: DispatcherState)
    ensures Drain(active, Drain(active, d).state) == Step(Drain(active, d).state, [])
  {
  }

  // ---------------------------------------------------------------------------
  // Properties of sequences of posts

  lemma {:induction false} DeliveriesAppend(l: ListenerId, a: seq<Event>, b: seq<Event>)
    ensures Deliveries(l, a + b) == Deliveries(l, a) + Deliveries(l, b)
  {
    if a != [] {
      assert (a + b)[1..] == a[1..] + b;
      DeliveriesAppend(l, a[1..], b);
    }
  }

  /** Posting es and then e is posting es + [e]. */
  lemma {:induction false} PostAllSnoc(active: bool, d: DispatcherState, es: seq<Event>, e: Event)
    ensures PostAll(active, d, es + [e]) ==
      var s := PostAll(active, d, es);
      var t := Post(active, s.state, e);
      Step(t.state, s.out + t.out)
    decreases |es|
  {
    if es == [] {
      assert [e][1..] == [];
    } else {
      assert (es + [e])[0] == es[0];
      assert (es + [e])[1..] == es[1..] + [e];
      PostAllSnoc(active, Post(active, d, es[0]).state, es[1..], e);
    }
  }

  /** While not ready, a storing dispatcher appends every posted event to its queue, in order,
      and delivers nothing. */
  lemma {:induction false} StoredWhileNotReady(active: bool, d: DispatcherState, es: seq<Event>)
    requires !d.destroyed && !Ready(active, d) && d.storeWhileInactive
    ensures PostAll(active, d, es) == Step(d.(pending := d.pending + es), [])
    decreases |es|
  {
    if es != [] {
      var d' := d.(pending := d.pending + [es[0]]);
      StoredWhileNotReady(active, d', es[1..]);
      assert d.pending + [es[0]] + es[1..] == d.pending + es;
    }
  }

  /** While not ready, a non-storing dispatcher drops every posted event: nothing is delivered
      and the state, queue included, is unchanged. */
  lemma {:induction false} DroppedWhileNotReady(active: bool, d: DispatcherState, es: seq<Event>)
    requires !d.destroyed && !Ready(active, d) && !d.storeWhileInactive
    ensures PostAll(active, d, es) == Step(d, [])
  {
    if es != [] {
      DroppedWhileNotReady(active, d, es[1..]);
    }
  }

  /** While ready, every posted event goes straight to the current listener, in order, and the
      queue is untouched. */
  lemma {:induction false} DeliveredWhileReady(active: bool, d: DispatcherState, es: seq<Event>)
    requires !d.destroyed && Ready(active, d)
    ensures PostAll(active, d, es) == Step(d, Deliveries(d.listener.value, es))
  {
    if es != [] {
      DeliveredWhileReady(active, d, es[1..]);
    }
  }

  /** A destroyed dispatcher ignores every post. */
  lemma {:induction false} IgnoredAfterDestroy(active: bool, d: DispatcherState, es: seq<Event>)
    requires d.destroyed
    ensures PostAll(active, d, es) == Step(d, [])
  {
    if es != [] {
      IgnoredAfterDestroy(active, d, es[1..]);
    }
  }

  /** Events posted while the lifecycle is inactive to a storing dispatcher are delivered once each,
      in their original order and after those already pending, as soon as the lifecycle becomes
      active with a listener present; the queue is then empty. */
  lemma BufferedThenDelivered(d: DispatcherState, es: seq<Event>)
    requires !d.destroyed && d.storeWhileInactive && d.listener.Some?
    ensures
      var queued := PostAll(false, d, es);
      var drained := Drain(true, queued.state);
      && queued.out == []
      && drained.out == Deliveries(d.listener.value, d.pending + es)
      && drained.state == d.(pending := [])
  {
    StoredWhileNotReady(false, d, es);
  }

  /** Events posted while the lifecycle is inactive to a non-storing dispatcher are never delivered,
      not even when the lifecycle becomes active later, and the queue stays empty. */
  lemma DroppedForever(d: DispatcherState, es: seq<Event>)
    requires !d.destroyed && !d.storeWhileInactive && d.pending == []
    ensures
      var queued := PostAll(false, d, es);
      var drained := Drain(true, queued.state);
      && queued.out == [] && drained.out == []
      && queued.state.pending == [] && drained.state.pending == []
  {
    DroppedWhileNotReady(false, d, es);
  }

  /** Rebinding while events are pending: the events go to the new listener only, once each, in
      order, either at once (lifecycle active) or at the next activation (lifecycle inactive). */
  lemma RebindDeliversToNewListener(d: DispatcherState, l: ListenerId)
    requires !d.destroyed
    ensures WithListener(true, d, Some(l)).out == Deliveries(l, d.pending)
    ensures WithListener(true, d, Some(l)).state.pending == []
    ensures WithListener(false, d, Some(l)).out == []
    ensures Drain(true, WithListener(false, d, Some(l)).state).out == Deliveries(l, d.pending)
    ensures forall k :: 0 <= k < |d.pending| ==> Deliveries(l, d.pending)[k].listener == l
  {
  }

  /** setListener(null) never delivers anything and keeps the queue. */
  lemma ClearingListenerKeepsQueue(active: bool, d: DispatcherState)
    ensures WithListener(active, d, None) == Step(d.(listener := None), [])
  {
  }
}
