/**
 * The older dispatcher of package android.example.com.uicommunication.framework: the same
 * deliver / queue / drop rule as the library's LifecycleEventDispatcher, with no destroyed state
 * and no destroy listeners. Its decisions are those of module DispatchSpec on a state whose
 * destroyed flag is always false.
 */
module LegacyFramework {
  import opened Wrappers
  import opened DispatchSpec

  /**
   * The framework's Lifecycle interface as the dispatcher uses it: isActive() and
   * addActiveChangeListener(Runnable). The interface has no implementation in this model; the
   * only Runnables added are those of dispatchers, each of which runs its dispatcher's
   * dispatchPendingIfReady.
   */
  class HostLifecycle {
    var active: bool
    var activeChangeListeners: seq<LegacyEventDispatcher>

    constructor (active: bool)
      ensures this.active == active && activeChangeListeners == []
    {
      this.active := active;
      activeChangeListeners := [];
    }

    predicate IsActive()
      reads this
    {
      active
    }
  }

  class LegacyEventDispatcher {
    const lifecycle: HostLifecycle
    var listener: Option<ListenerId>
    const storeWhileInactive: bool
    var pendingEvents: seq<Event>
    /** The calls listener.onEvent(e) made so far, in order. */
    var delivered: seq<Delivery>

    /** Only a storing dispatcher ever has pending events. */
    ghost predicate Valid()
      reads this
    {
      PendingOnlyWhenStoring(View())
    }

    /** The state the dispatch decisions depend on; there is no destroyed state. */
    function View(): DispatcherState
      reads this
    {
      DispatcherState(listener, storeWhileInactive, pendingEvents, false)
    }

    /** Creates the dispatcher and adds its Runnable to the lifecycle's active-change listeners. */
    constructor (lifecycle: HostLifecycle, storeWhileInactive: bool)
      modifies lifecycle
      ensures Valid() && this.lifecycle == lifecycle && View() == NewDispatcher(storeWhileInactive)
      ensures delivered == []
      ensures lifecycle.activeChangeListeners == old(lifecycle.activeChangeListeners) + [this]
      ensures lifecycle.active == old(lifecycle.active)
    {
      this.lifecycle := lifecycle;
      this.storeWhileInactive := storeWhileInactive;
      listener := None;
      pendingEvents := [];
      delivered := [];
      new;
      lifecycle.activeChangeListeners := lifecycle.activeChangeListeners + [this];
    }

    /** setListener: replace the listener (None clears it), then drain if ready. */
    method SetListener(l: Option<ListenerId>)
      requires Valid()
      modifies this
      ensures Valid()
      ensures View() == WithListener(lifecycle.active, old(View()), l).state
      ensures delivered == old(delivered) + WithListener(lifecycle.active, old(View()), l).out
    {
      listener := l;
      DispatchPendingIfReady();
    }

    /** readyForEvent */
    predicate ReadyForEvent()
      reads this, lifecycle
    {
      Ready(lifecycle.active, View())
    }

    /** dispatchEvent: one call listener.onEvent(e). The source throws when the listener is null;
        both call sites have checked readyForEvent, so that throw cannot happen. */
    method DispatchEvent(e: Event)
      requires listener.Some?
      modifies this`delivered
      ensures delivered == old(delivered) + [Delivery(listener.value, e)]
    {
      delivered := delivered + [Delivery(listener.value, e)];
    }

    /** dispatchPendingIfReady; also what the Runnable added in the constructor runs. */
    method DispatchPendingIfReady()
      requires Valid()
      modifies this
      ensures Valid()
      ensures View() == Drain(lifecycle.active, old(View())).state
      ensures delivered == old(delivered) + Drain(lifecycle.active, old(View())).out
    {
      if ReadyForEvent() {
        DispatchAllPending();
      }
    }

    /** The iterator loop of dispatchPendingIfReady: deliver and remove the head until the queue is empty. */
    method DispatchAllPending()
      requires listener.Some?
      modifies this`pendingEvents, this`delivered
      ensures pendingEvents == []
      ensures delivered == old(delivered) + Deliveries(listener.value, old(pendingEvents))
    {
      while pendingEvents != []
        invariant delivered + Deliveries(listener.value, pendingEvents) ==
                  old(delivered) + Deliveries(listener.value, old(pendingEvents))
        decreases |pendingEvents|
      {
        assert Deliveries(listener.value, pendingEvents) ==
          [Delivery(listener.value, pendingEvents[0])] + Deliveries(listener.value, pendingEvents[1..]);
        DispatchEvent(pendingEvents[0]);
        pendingEvents := pendingEvents[1..];
      }
    }

    /** postEvent: deliver when ready; otherwise queue when storeWhileInactive, else drop. */
    method PostEvent(e: Event)
      requires Valid()
      modifies this
      ensures Valid()
      ensures View() == Post(lifecycle.active, old(View()), e).state
      ensures delivered == old(delivered) + Post(lifecycle.active, old(View()), e).out
    {
      if ReadyForEvent() {
        DispatchEvent(e);
      } else if storeWhileInactive {
        pendingEvents := pendingEvents + [e];
      }
    }
  }

  /** The legacy dispatcher is never destroyed, so on its states a post is delivered exactly when
      the lifecycle is active and a listener is bound, and a storing dispatcher loses no event:
      what it does not deliver it queues. A non-storing one never queues. */
  lemma LegacyPostFate(active: bool, d: DispatcherState, e: Event)
    requires !d.destroyed
    ensures var r := Post(active, d, e);
      && (r.out != [] <==> Ready(active, d))
      && (d.storeWhileInactive ==> |r.out| + |r.state.pending| == |d.pending| + 1)
      && (!d.storeWhileInactive ==> r.state.pending == d.pending)
  {
  }
}
