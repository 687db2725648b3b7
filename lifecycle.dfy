/**
 * The lifecycle-gated event dispatch classes of package com.talk4date.android.lifecycle:
 * BaseLifecycle (with the flags of its subclass ActivityBasedLifecycle), LifecycleEventDispatcher,
 * EventReceivers and UnmanagedEventReceiver.
 *
 * The classes call one another (a lifecycle notifies its dispatchers, a dispatcher notifies the
 * groups that hold it, a group unsubscribes from the receiver), so they share one module, as they
 * share one package. Only the main-thread path is modelled. Calls into client code (listeners and
 * callbacks) are recorded in log fields of the object that makes them.
 */
module Lifecycle {
  import opened Wrappers
  import opened Seqs
  import opened DispatchSpec

  /** An entry of a lifecycle's active-change listener list: a dispatcher (which subscribes itself
      in its constructor) or a client callback. */
  datatype ActiveChangeListener = DispatcherOnActive(d: LifecycleEventDispatcher) | ActiveCallback(id: ListenerId)

  /** An entry of a lifecycle's destroy listener list. */
  datatype LifecycleDestroyListener = DispatcherOnDestroy(d: LifecycleEventDispatcher) | DestroyCallback(id: ListenerId)

  /** A call a lifecycle makes into a client callback. */
  datatype Notification = ActiveChanged(listener: ListenerId, active: bool) | LifecycleDestroyed(listener: ListenerId)

  /** An EventReceiver: one of the two implementations in the package. */
  datatype Receiver = Dispatched(d: LifecycleEventDispatcher) | Unmanaged(u: UnmanagedEventReceiver)
  {
    function Obj(): object
    {
      match this
      case Dispatched(d) => d
      case Unmanaged(u) => u
    }

    ghost predicate Valid()
      reads Obj()
    {
      match this
      case Dispatched(d) => d.Valid()
      case Unmanaged(u) => true
    }

    /** The receiver's state as far as postEvent is concerned; see Observation. */
    ghost function Obs(): Observation
      reads Obj(), if Dispatched? then {d.lifecycle} else {}
    {
      match this
      case Dispatched(d) => d.Obs()
      case Unmanaged(u) => UnmanagedObs(u.destroyed, u.received, u.listeners, u.destroyNotified)
    }

    /** The receiver's list of EventReceiver.OnDestroyListener entries. */
    function DestroyListeners(): seq<ReceiverDestroyListener>
      reads Obj()
    {
      match this
      case Dispatched(d) => d.onDestroyListeners
      case Unmanaged(u) => u.listeners
    }
  }

  /** An EventReceiver.OnDestroyListener: an EventReceivers group or a client callback. */
  datatype ReceiverDestroyListener = Group(g: EventReceivers) | ReceiverDestroyCallback(id: ListenerId)

  /** The objects behind a list of receivers. */
  function Objects(rs: seq<Receiver>): set<object>
  {
    set r | r in rs :: r.Obj()
  }

  /** A group is never one of the receivers' objects (they are dispatchers or unmanaged receivers). */
  lemma GroupNotAReceiver(rs: seq<Receiver>, g: EventReceivers)
    ensures g !in Objects(rs)
  {
    forall r | r in rs ensures r.Obj() != g {
      match r {
        case Dispatched(d) =>
        case Unmanaged(u) =>
      }
    }
  }

  /** The groups in a list of receiver destroy listeners. */
  function Groups(ls: seq<ReceiverDestroyListener>): set<EventReceivers>
  {
    set e | e in ls && e.Group? :: e.g
  }

  /** The receiver lists of the groups gs. */
  ghost function Members(gs: set<EventReceivers>): map<EventReceivers, seq<Receiver>>
    reads gs
  {
    map g | g in gs :: g.eventReceivers
  }

  /** start records the receiver list of every group of gs. */
  ghost predicate MembersAre(gs: set<EventReceivers>, start: map<EventReceivers, seq<Receiver>>)
    reads gs
  {
    forall g :: g in gs ==> g in start && start[g] == g.eventReceivers
  }

  /** The client callbacks in a list of receiver destroy listeners, in order. */
  function CallbackIds(ls: seq<ReceiverDestroyListener>): seq<ListenerId>
  {
    if ls == [] then []
    else
      CallbackIds(ls[..|ls| - 1]) +
      match ls[|ls| - 1]
      case ReceiverDestroyCallback(id) => [id]
      case Group(_) => []
  }

  lemma CallbackIdsStep(snapshot: seq<ReceiverDestroyListener>, i: nat)
    requires i < |snapshot|
    ensures CallbackIds(snapshot[..i + 1]) == CallbackIds(snapshot[..i]) + CallbackIds([snapshot[i]])
  {
    assert snapshot[..i + 1][..i] == snapshot[..i];
    assert [snapshot[i]][..0] == [];
  }

  /** The entries of a list of receiver destroy listeners that are not groups, in order. */
  function NonGroups(ls: seq<ReceiverDestroyListener>): (r: seq<ReceiverDestroyListener>)
    ensures forall k :: 0 <= k < |r| ==> r[k].ReceiverDestroyCallback?
  {
    if ls == [] then []
    else NonGroups(ls[..|ls| - 1]) + (if ls[|ls| - 1].Group? then [] else [ls[|ls| - 1]])
  }

  /** One step of notifyOnDestroyListeners over a snapshot: a group removes its own first entry
      from the list as it then stands; a callback leaves the list alone. */
  lemma NonGroupsStep(snapshot: seq<ReceiverDestroyListener>, i: nat)
    requires i < |snapshot|
    ensures snapshot[i].Group? ==>
      RemoveFirst(NonGroups(snapshot[..i]) + snapshot[i..], snapshot[i]) == NonGroups(snapshot[..i + 1]) + snapshot[i + 1..]
    ensures !snapshot[i].Group? ==>
      NonGroups(snapshot[..i]) + snapshot[i..] == NonGroups(snapshot[..i + 1]) + snapshot[i + 1..]
  {
    var kept := NonGroups(snapshot[..i]);
    assert snapshot[..i + 1][..i] == snapshot[..i];
    assert snapshot[i..] == [snapshot[i]] + snapshot[i + 1..];
    var list := kept + snapshot[i..];
    if snapshot[i].Group? {
      assert snapshot[i] !in kept;
      assert list[|kept|] == snapshot[i];
      assert list[..|kept|] == kept;
      RemoveFirstAt(list, snapshot[i], |kept|);
      assert list[|kept| + 1..] == snapshot[i + 1..];
    }
  }

  /** The calls setActive(v) makes into client callbacks, in list order. */
  function ActiveNotifications(ls: seq<ActiveChangeListener>, v: bool): seq<Notification>
  {
    if ls == [] then []
    else
      ActiveNotifications(ls[..|ls| - 1], v) +
      match ls[|ls| - 1]
      case ActiveCallback(id) => [ActiveChanged(id, v)]
      case DispatcherOnActive(_) => []
  }

  /** The calls destroy() makes into client callbacks, in list order. */
  function DestroyNotifications(ls: seq<LifecycleDestroyListener>): seq<Notification>
  {
    if ls == [] then []
    else
      DestroyNotifications(ls[..|ls| - 1]) +
      match ls[|ls| - 1]
      case DestroyCallback(id) => [LifecycleDestroyed(id)]
      case DispatcherOnDestroy(_) => []
  }

  // ===========================================================================

  /**
   * BaseLifecycle together with the two flags of ActivityBasedLifecycle, its only subclass.
   */
  class BaseLifecycle {
    var activeChangeListeners: seq<ActiveChangeListener>
    var onDestroyListeners: seq<LifecycleDestroyListener>
    var eventDispatchers: map<string, LifecycleEventDispatcher>
    var active: bool
    var destroyed: bool
    /** ActivityBasedLifecycle.restored */
    var restored: bool
    /** ActivityBasedLifecycle.newLifecycle */
    var newLifecycle: bool
    /** The calls made into client callbacks, in order. */
    var notified: seq<Notification>
    /** Every dispatcher created for this lifecycle. */
    ghost var dispatchers: set<LifecycleEventDispatcher>

    ghost predicate Valid()
      reads this, dispatchers
    {
      && (forall d :: d in dispatchers ==>
            && d.Valid()
            && (d.destroyed || d.lifecycle == this)
            && DispatcherOnActive(d) in activeChangeListeners
            && DispatcherOnDestroy(d) in onDestroyListeners)
      && (!destroyed ==> forall d :: d in dispatchers ==> !d.destroyed)
      && (forall e :: e in activeChangeListeners && e.DispatcherOnActive? ==> e.d in dispatchers)
      && (forall e :: e in onDestroyListeners && e.DispatcherOnDestroy? ==> e.d in dispatchers)
      && (forall t :: t in eventDispatchers ==> eventDispatchers[t] in dispatchers)
      && (forall d :: d in dispatchers ==> d.tag in eventDispatchers && eventDispatchers[d.tag] == d)
    }

    /** The listener lists, the dispatcher registry and the restore flags. */
    ghost function Registry(): (seq<ActiveChangeListener>, seq<LifecycleDestroyListener>,
                                map<string, LifecycleEventDispatcher>, set<LifecycleEventDispatcher>, bool, bool)
      reads this
    {
      (activeChangeListeners, onDestroyListeners, eventDispatchers, dispatchers, restored, newLifecycle)
    }

    /** Everything but the restore flags: the listener lists, the dispatcher registry, the calls
        made so far and the active and destroyed flags. */
    ghost function Core(): (seq<ActiveChangeListener>, seq<LifecycleDestroyListener>,
                            map<string, LifecycleEventDispatcher>, set<LifecycleEventDispatcher>,
                            seq<Notification>, bool, bool)
      reads this
    {
      (activeChangeListeners, onDestroyListeners, eventDispatchers, dispatchers, notified, active, destroyed)
    }

    /** No dispatcher of this lifecycle has been destroyed yet (each still holds its lifecycle). */
    ghost predicate DispatchersAlive()
      reads this, dispatchers
    {
      forall d :: d in dispatchers ==> !d.destroyed
    }

    /** The groups reachable as destroy listeners of this lifecycle's dispatchers. */
    ghost function DispatcherGroups(): set<EventReceivers>
      reads this`dispatchers, dispatchers
    {
      set d, e | d in dispatchers && e in d.onDestroyListeners && e.Group? :: e.g
    }

    /** Each dispatcher's destroy listener list. */
    ghost function DestroyLists(): map<LifecycleEventDispatcher, seq<ReceiverDestroyListener>>
      reads this`dispatchers, dispatchers
    {
      map d | d in dispatchers :: d.onDestroyListeners
    }

    constructor ()
      ensures Valid()
      ensures !active && !destroyed
      ensures !restored && newLifecycle
      ensures activeChangeListeners == [] && onDestroyListeners == []
      ensures eventDispatchers == map[] && dispatchers == {} && notified == []
    {
      activeChangeListeners := [];
      onDestroyListeners := [];
      eventDispatchers := map[];
      active := false;
      destroyed := false;
      restored := false;
      newLifecycle := true;
      notified := [];
      dispatchers := {};
    }

    predicate IsActive()
      reads this
    {
      active
    }

    predicate IsDestroyed()
      reads this
    {
      destroyed
    }

    /** ActivityBasedLifecycle.isRestored */
    predicate IsRestored()
      reads this
    {
      restored
    }

    /** ActivityBasedLifecycle.isNew */
    predicate IsNew()
      reads this
    {
      newLifecycle
    }

    /** ActivityBasedLifecycle.isNewOrRestored */
    predicate IsNewOrRestored()
      reads this
    {
      IsNew() || IsRestored()
    }

    /**
     * setActive: a no-op when the value does not change; otherwise active := v and every
     * active-change listener runs once, in list order. A dispatcher drains its queue; a client
     * callback is called with v.
     */
    method SetActive(v: bool)
      requires Valid() && !destroyed
      modifies this, dispatchers
      ensures Valid() && active == v && !destroyed && Registry() == old(Registry())
      ensures notified == if old(active) == v then old(notified) else old(notified) + ActiveNotifications(activeChangeListeners, v)
      ensures forall d :: d in dispatchers ==>
        d.ObsAt(v) == if old(active) == v then old(d.ObsAt(v)) else DrainObs(old(d.ObsAt(v)))
    {
      if active != v {
        active := v;
        NotifyActiveChangeListeners(v);
      }
    }

    /** The loop of setActive: every active-change listener is called once with v, in list order. */
    method NotifyActiveChangeListeners(v: bool)
      requires active == v
      requires forall d :: d in dispatchers ==>
        d.Valid() && !d.destroyed && d.lifecycle == this && DispatcherOnActive(d) in activeChangeListeners
      requires forall e :: e in activeChangeListeners && e.DispatcherOnActive? ==> e.d in dispatchers
      modifies this`notified, dispatchers
      ensures notified == old(notified) + ActiveNotifications(activeChangeListeners, v)
      ensures forall d :: d in dispatchers ==> d.Valid() && d.ObsAt(v) == DrainObs(old(d.ObsAt(v)))
    {
      var i := 0;
      ghost var done: set<LifecycleEventDispatcher> := {};
      while i < |activeChangeListeners|
        invariant 0 <= i <= |activeChangeListeners|
        invariant notified == old(notified) + ActiveNotifications(activeChangeListeners[..i], v)
        invariant forall d :: d in dispatchers ==>
          && d.Valid()
          && (DispatcherOnActive(d) in activeChangeListeners[..i] ==> d in done)
          && d.ObsAt(v) == if d in done then DrainObs(old(d.ObsAt(v))) else old(d.ObsAt(v))
      {
        var entry := activeChangeListeners[i];
        assert activeChangeListeners[..i + 1] == activeChangeListeners[..i] + [entry];
        CallActiveChange(entry, v);
        done := done + Subscribed(entry);
        i := i + 1;
      }
      assert activeChangeListeners[..i] == activeChangeListeners;
    }

    /** The call listener.onActiveChange(v) on one entry of the list. */
    method CallActiveChange(entry: ActiveChangeListener, v: bool)
      requires entry.DispatcherOnActive? ==> entry.d.Valid() && !entry.d.destroyed && entry.d.Active() == v
      modifies this`notified, Subscribed(entry)
      ensures notified == old(notified) + ActiveNotifications([entry], v)
      ensures forall d :: d in Subscribed(entry) ==>
        && d.Valid()
        && d.ObsAt(v) == DrainObs(old(d.ObsAt(v)))
        && DrainObs(d.ObsAt(v)) == d.ObsAt(v)
    {
      match entry {
        case DispatcherOnActive(d) =>
          DrainIdempotent(v, d.View());
          d.OnActiveChange(v);
        case ActiveCallback(id) =>
          notified := notified + [ActiveChanged(id, v)];
      }
    }

    /**
     * invalidateEventListeners: every registered dispatcher gets setListener(null), which delivers
     * nothing and keeps its queue.
     */
    method InvalidateEventListeners()
      requires Valid() && DispatchersAlive()
      modifies dispatchers
      ensures Valid() && DispatchersAlive()
      ensures forall d :: d in dispatchers ==> d.ObsAt(false) == Unbound(old(d.ObsAt(false)))
      ensures forall d :: d in dispatchers ==> d.onDestroyListeners == old(d.onDestroyListeners)
    {
      var remaining := eventDispatchers.Values;
      assert remaining == dispatchers;
      while remaining != {}
        invariant remaining <= dispatchers
        invariant forall d :: d in dispatchers ==>
          && d.Valid() && !d.destroyed
          && d.onDestroyListeners == old(d.onDestroyListeners)
          && d.ObsAt(false) == if d in remaining then old(d.ObsAt(false)) else Unbound(old(d.ObsAt(false)))
        decreases remaining
      {
        var d :| d in remaining;
        d.SetListener(None);
        assert d.ObsAt(false).wiring == old(d.ObsAt(false)).wiring;
        remaining := remaining - {d};
      }
    }

    /**
     * destroy: destroyed := true, then all listeners are invalidated, then every destroy listener
     * runs once, in list order. A dispatcher destroys itself; a client callback is called.
     */
    method Destroy()
      requires Valid() && !destroyed
      modifies this, dispatchers, DispatcherGroups()
      ensures Valid() && destroyed && active == old(active) && Registry() == old(Registry())
      ensures notified == old(notified) + DestroyNotifications(onDestroyListeners)
      ensures forall d :: d in dispatchers ==> d.ObsAt(false) == DestroyedObs(old(d.ObsAt(false)))
      ensures AllReleased(old(DispatcherGroups()), old(Members(DispatcherGroups())), dispatchers, old(DestroyLists()))
    {
      ghost var groups, lists := DispatcherGroups(), DestroyLists();
      ghost var start := Members(groups);
      ReleaseFrame(groups, start, lists);
      destroyed := true;
      Dismantle(groups, start, lists);
    }

    /** What destroy does once the flag is set: invalidateEventListeners(), then the destroy loop. */
    method Dismantle(ghost groups: set<EventReceivers>, ghost start: map<EventReceivers, seq<Receiver>>,
                     ghost lists: map<LifecycleEventDispatcher, seq<ReceiverDestroyListener>>)
      requires Valid() && destroyed && DispatchersAlive()
      requires ListsAre(groups, lists) && MembersAre(groups, start)
      modifies this`notified, dispatchers, groups
      ensures Valid()
      ensures notified == old(notified) + DestroyNotifications(onDestroyListeners)
      ensures forall d :: d in dispatchers ==> d.ObsAt(false) == DestroyedObs(old(d.ObsAt(false)))
      ensures AllReleased(groups, start, dispatchers, lists)
    {
      InvalidateEventListeners();
      assert ListsAre(groups, lists);
      NotifyDestroyListeners(groups, start, lists);
    }

    /** Each dispatcher's destroy list is the one recorded in lists, and its groups are among groups. */
    ghost predicate ListsAre(groups: set<EventReceivers>, lists: map<LifecycleEventDispatcher, seq<ReceiverDestroyListener>>)
      reads this`dispatchers, dispatchers
    {
      forall d :: d in dispatchers ==>
        Groups(d.onDestroyListeners) <= groups && d in lists && lists[d] == d.onDestroyListeners
    }

    /** The groups, their members and the destroy lists, read pointwise. */
    lemma ReleaseFrame(groups: set<EventReceivers>, start: map<EventReceivers, seq<Receiver>>,
                       lists: map<LifecycleEventDispatcher, seq<ReceiverDestroyListener>>)
      requires groups == DispatcherGroups() && start == Members(groups) && lists == DestroyLists()
      ensures ListsAre(groups, lists) && MembersAre(groups, start)
    {
    }

    /** The loop of destroy: every destroy listener is called once, in list order. */
    method NotifyDestroyListeners(ghost groups: set<EventReceivers>, ghost start: map<EventReceivers, seq<Receiver>>,
                                  ghost lists: map<LifecycleEventDispatcher, seq<ReceiverDestroyListener>>)
      requires forall d :: d in dispatchers ==> d.Valid() && DispatcherOnDestroy(d) in onDestroyListeners
      requires forall e :: e in onDestroyListeners && e.DispatcherOnDestroy? ==> e.d in dispatchers
      requires ListsAre(groups, lists) && MembersAre(groups, start)
      modifies this`notified, dispatchers, groups
      ensures notified == old(notified) + DestroyNotifications(onDestroyListeners)
      ensures forall d :: d in dispatchers ==> d.Valid() && d.ObsAt(false) == DestroyedObs(old(d.ObsAt(false)))
      ensures AllReleased(groups, start, dispatchers, lists)
    {
      ghost var before := map d | d in dispatchers :: d.ObsAt(false);
      var i := 0;
      ghost var done: set<LifecycleEventDispatcher> := {};
      while i < |onDestroyListeners|
        invariant 0 <= i <= |onDestroyListeners|
        invariant DestroyLoop(i, done, old(notified), before, groups, start, lists)
      {
        DestroyStep(i, done, old(notified), before, groups, start, lists);
        done := done + DestroySubscribed(onDestroyListeners[i]);
        i := i + 1;
      }
      assert onDestroyListeners[..i] == onDestroyListeners;
      assert done == dispatchers;
    }

    /**
     * The destroy loop after its first i entries: their client callbacks were called, the
     * dispatchers among them (done) are destroyed, and each group has lost exactly those.
     */
    ghost predicate DestroyLoop(i: nat, done: set<LifecycleEventDispatcher>, notified0: seq<Notification>,
                                before: map<LifecycleEventDispatcher, Observation>, groups: set<EventReceivers>,
                                start: map<EventReceivers, seq<Receiver>>,
                                lists: map<LifecycleEventDispatcher, seq<ReceiverDestroyListener>>)
      reads this, dispatchers, groups
    {
      && i <= |onDestroyListeners|
      && notified == notified0 + DestroyNotifications(onDestroyListeners[..i])
      && done <= dispatchers
      && (forall e :: e in onDestroyListeners && e.DispatcherOnDestroy? ==> e.d in dispatchers)
      && (forall d :: d in dispatchers && DispatcherOnDestroy(d) in onDestroyListeners[..i] ==> d in done)
      && DestroyProgress(done, before, groups, lists)
      && AllReleased(groups, start, done, lists)
    }

    /** One pass of the destroy loop. */
    method DestroyStep(i: nat, ghost done: set<LifecycleEventDispatcher>, ghost notified0: seq<Notification>,
                       ghost before: map<LifecycleEventDispatcher, Observation>, ghost groups: set<EventReceivers>,
                       ghost start: map<EventReceivers, seq<Receiver>>,
                       ghost lists: map<LifecycleEventDispatcher, seq<ReceiverDestroyListener>>)
      requires i < |onDestroyListeners| && DestroyLoop(i, done, notified0, before, groups, start, lists)
      modifies this`notified, DestroySubscribed(onDestroyListeners[i]), groups
      ensures DestroyLoop(i + 1, done + DestroySubscribed(onDestroyListeners[i]), notified0, before, groups, start, lists)
    {
      var entry := onDestroyListeners[i];
      assert onDestroyListeners[..i + 1] == onDestroyListeners[..i] + [entry];
      ReleaseStep(entry, done, before, groups, start, lists);
    }

    /** Halfway through the destroy loop: the dispatchers in done are destroyed, the others are as
        they were (before), and each one's destroy list is the recorded one or, once destroyed, empty. */
    ghost predicate DestroyProgress(done: set<LifecycleEventDispatcher>, before: map<LifecycleEventDispatcher, Observation>,
                                    groups: set<EventReceivers>, lists: map<LifecycleEventDispatcher, seq<ReceiverDestroyListener>>)
      reads this`dispatchers, dispatchers
    {
      forall d :: d in dispatchers ==> Progressed(d, d in done, before, groups, lists)
    }

    /** Dispatcher d as its destruction left it (gone) or as it was before. */
    static ghost predicate Progressed(d: LifecycleEventDispatcher, gone: bool, before: map<LifecycleEventDispatcher, Observation>,
                                      groups: set<EventReceivers>, lists: map<LifecycleEventDispatcher, seq<ReceiverDestroyListener>>)
      reads d
    {
      && d.Valid() && d in before && d in lists && Groups(lists[d]) <= groups
      && d.onDestroyListeners == (if gone then [] else lists[d])
      && d.ObsAt(false) == if gone then DestroyedObs(before[d]) else before[d]
    }

    /** One entry of the destroy loop called, with the groups brought up to date. */
    method ReleaseStep(entry: LifecycleDestroyListener, ghost done: set<LifecycleEventDispatcher>,
                       ghost before: map<LifecycleEventDispatcher, Observation>, ghost groups: set<EventReceivers>,
                       ghost start: map<EventReceivers, seq<Receiver>>,
                       ghost lists: map<LifecycleEventDispatcher, seq<ReceiverDestroyListener>>)
      requires entry.DispatcherOnDestroy? ==> entry.d in dispatchers
      requires DestroyProgress(done, before, groups, lists) && AllReleased(groups, start, done, lists)
      modifies this`notified, DestroySubscribed(entry), groups
      ensures notified == old(notified) + DestroyNotifications([entry])
      ensures DestroyProgress(done + DestroySubscribed(entry), before, groups, lists)
      ensures AllReleased(groups, start, done + DestroySubscribed(entry), lists)
    {
      ProgressStep(entry, done, before, groups, lists);
      forall g | g in groups
        ensures Released(start[g], g.eventReceivers, g, done + DestroySubscribed(entry), lists)
      {
        if entry.DispatcherOnDestroy? && entry.d !in done {
          var d := entry.d;
          if g !in Groups(lists[d]) {
            assert Group(g) !in lists[d];
            CountAbsent(lists[d], Group(g));
          }
          ReleasedStep(start[g], old(g.eventReceivers), g, done, lists, d);
        }
      }
    }

    /** The groups one entry of the destroy loop changes: those of a dispatcher not yet destroyed. */
    ghost function Released1(entry: LifecycleDestroyListener, done: set<LifecycleEventDispatcher>,
                             lists: map<LifecycleEventDispatcher, seq<ReceiverDestroyListener>>): set<EventReceivers>
    {
      if entry.DispatcherOnDestroy? && entry.d !in done && entry.d in lists then Groups(lists[entry.d]) else {}
    }

    /** One entry of the destroy loop called, with the dispatchers' progress brought up to date. */
    method ProgressStep(entry: LifecycleDestroyListener, ghost done: set<LifecycleEventDispatcher>,
                        ghost before: map<LifecycleEventDispatcher, Observation>, ghost groups: set<EventReceivers>,
                        ghost lists: map<LifecycleEventDispatcher, seq<ReceiverDestroyListener>>)
      requires entry.DispatcherOnDestroy? ==> entry.d in dispatchers
      requires DestroyProgress(done, before, groups, lists)
      modifies this`notified, DestroySubscribed(entry), Released1(entry, done, lists)
      ensures notified == old(notified) + DestroyNotifications([entry])
      ensures DestroyProgress(done + DestroySubscribed(entry), before, groups, lists)
      ensures entry.DispatcherOnDestroy? && entry.d !in done ==> forall g :: g in Groups(lists[entry.d]) ==>
        g.eventReceivers == RemoveN(old(g.eventReceivers), Dispatched(entry.d), Count(lists[entry.d], Group(g)))
    {
      if entry.DispatcherOnDestroy? {
        DestroyedObsIdempotent(before[entry.d]);
      }
      CallOnDestroy(entry);
      forall d | d in dispatchers
        ensures Progressed(d, d in done + DestroySubscribed(entry), before, groups, lists)
      {
        if d !in DestroySubscribed(entry) {
          assert old(Progressed(d, d in done, before, groups, lists));
        }
      }
    }

    /** The call listener.onDestroy() on one entry of the list. */
    method CallOnDestroy(entry: LifecycleDestroyListener)
      requires entry.DispatcherOnDestroy? ==> entry.d.Valid()
      modifies this`notified, DestroySubscribed(entry), if entry.DispatcherOnDestroy? then Groups(entry.d.onDestroyListeners) else {}
      ensures notified == old(notified) + DestroyNotifications([entry])
      ensures forall d :: d in DestroySubscribed(entry) ==>
        && d.Valid() && d.onDestroyListeners == []
        && d.ObsAt(false) == DestroyedObs(old(d.ObsAt(false)))
      ensures entry.DispatcherOnDestroy? ==> forall g :: g in Groups(old(entry.d.onDestroyListeners)) ==>
        g.eventReceivers ==
          RemoveN(old(g.eventReceivers), Dispatched(entry.d), Count(old(entry.d.onDestroyListeners), Group(g)))
    {
      match entry {
        case DispatcherOnDestroy(d) =>
          d.OnDestroy();
        case DestroyCallback(id) =>
          notified := notified + [LifecycleDestroyed(id)];
      }
    }

    /**
     * registerListener: the dispatcher for tag is looked up, or created with storeWhileInactive and
     * stored under tag; then it gets the listener (which drains its queue if the lifecycle is
     * active) and is returned. A known tag keeps its dispatcher, its storeWhileInactive and its queue.
     */
    method RegisterListener(tag: string, storeWhileInactive: bool, listener: ListenerId)
      returns (d: LifecycleEventDispatcher)
      requires Valid() && !destroyed
      modifies this, if tag in eventDispatchers then {eventDispatchers[tag]} else {}
      ensures Valid() && !destroyed && active == old(active) && notified == old(notified)
      ensures restored == old(restored) && newLifecycle == old(newLifecycle)
      ensures tag in eventDispatchers && eventDispatchers[tag] == d
      ensures d.listener == Some(listener) && d.lifecycle == this
      ensures tag in old(eventDispatchers) ==>
        && d == old(eventDispatchers[tag])
        && Registry() == old(Registry())
        && d.ObsAt(active) == Rebound(old(d.ObsAt(active)), Some(listener))
      ensures tag !in old(eventDispatchers) ==>
        && fresh(d)
        && eventDispatchers == old(eventDispatchers)[tag := d]
        && activeChangeListeners == old(activeChangeListeners) + [DispatcherOnActive(d)]
        && onDestroyListeners == old(onDestroyListeners) + [DispatcherOnDestroy(d)]
        && dispatchers == old(dispatchers) + {d}
        && d.View() == NewDispatcher(storeWhileInactive).(listener := Some(listener))
        && d.delivered == [] && d.onDestroyListeners == [] && d.destroyNotified == []
    {
      if tag in eventDispatchers {
        d := eventDispatchers[tag];
      } else {
        d := new LifecycleEventDispatcher(this, storeWhileInactive, tag);
        eventDispatchers := eventDispatchers[tag := d];
      }
      d.SetListener(Some(listener));
    }

    method AddActiveChangeListener(id: ListenerId)
      requires Valid()
      modifies this`activeChangeListeners
      ensures Valid()
      ensures activeChangeListeners == old(activeChangeListeners) + [ActiveCallback(id)]
    {
      activeChangeListeners := activeChangeListeners + [ActiveCallback(id)];
    }

    method RemoveActiveChangeListener(id: ListenerId)
      requires Valid()
      modifies this`activeChangeListeners
      ensures Valid()
      ensures activeChangeListeners == RemoveFirst(old(activeChangeListeners), ActiveCallback(id))
    {
      RemoveFirstMultiset(activeChangeListeners, ActiveCallback(id));
      activeChangeListeners := RemoveFirst(activeChangeListeners, ActiveCallback(id));
      assert forall e :: e != ActiveCallback(id) ==> (e in activeChangeListeners <==> e in old(activeChangeListeners)) by {
        forall e | e != ActiveCallback(id) {
          RemoveFirstKeeps(old(activeChangeListeners), ActiveCallback(id), e);
        }
      }
    }

    method AddOnDestroyListener(id: ListenerId)
      requires Valid()
      modifies this`onDestroyListeners
      ensures Valid()
      ensures onDestroyListeners == old(onDestroyListeners) + [DestroyCallback(id)]
    {
      onDestroyListeners := onDestroyListeners + [DestroyCallback(id)];
    }

    method RemoveOnDestroyListener(id: ListenerId)
      requires Valid()
      modifies this`onDestroyListeners
      ensures Valid()
      ensures onDestroyListeners == RemoveFirst(old(onDestroyListeners), DestroyCallback(id))
    {
      onDestroyListeners := RemoveFirst(onDestroyListeners, DestroyCallback(id));
      assert forall e :: e != DestroyCallback(id) ==> (e in onDestroyListeners <==> e in old(onDestroyListeners)) by {
        forall e | e != DestroyCallback(id) {
          RemoveFirstKeeps(old(onDestroyListeners), DestroyCallback(id), e);
        }
      }
    }

    /** The assignments the fragment registries make to the protected ActivityBasedLifecycle flags
        when a lifecycle is taken over by a re-created fragment: restored as given, new no longer. */
    method MarkRecreated(restored: bool)
      requires Valid()
      modifies this`restored, this`newLifecycle
      ensures Valid() && this.restored == restored && !newLifecycle && Core() == old(Core())
    {
      this.restored := restored;
      newLifecycle := false;
    }
  }

  // ===========================================================================

  /**
   * LifecycleEventDispatcher: the per-tag buffer between producers and one replaceable listener.
   */
  class LifecycleEventDispatcher {
    /** The owning lifecycle; null once destroyed. */
    var lifecycle: BaseLifecycle?
    /** The tag the dispatcher is registered under in its lifecycle. */
    ghost const tag: string
    var listener: Option<ListenerId>
    const storeWhileInactive: bool
    var pendingEvents: seq<Event>
    var onDestroyListeners: seq<ReceiverDestroyListener>
    var destroyed: bool
    /** The calls listener.onEvent(e) made so far, in order. */
    var delivered: seq<Delivery>
    /** The client destroy callbacks called so far, in order. */
    var destroyNotified: seq<ListenerId>

    ghost predicate Valid()
      reads this
    {
      && (destroyed <==> lifecycle == null)
      && (destroyed ==> listener.None? && pendingEvents == [])
      && PendingOnlyWhenStoring(View())
    }

    /** The state the dispatch decisions depend on. */
    function View(): DispatcherState
      reads this
    {
      DispatcherState(listener, storeWhileInactive, pendingEvents, destroyed)
    }

    /** The fields that only the constructor, onDestroy and the destroy-listener methods change. */
    ghost function Wiring(): (BaseLifecycle?, seq<ReceiverDestroyListener>, seq<ListenerId>)
      reads this
    {
      (lifecycle, onDestroyListeners, destroyNotified)
    }

    /** Everything except the destroy listener list. */
    ghost function Core(): (BaseLifecycle?, DispatcherState, seq<Delivery>, seq<ListenerId>)
      reads this
    {
      (lifecycle, View(), delivered, destroyNotified)
    }

    /** The dispatcher's state together with its lifecycle's active flag. */
    ghost function Obs(): Observation
      reads this, lifecycle
    {
      DispatcherObs(Active(), View(), delivered, Wiring())
    }

    /** The dispatcher's state together with a given value of the active flag. */
    ghost function ObsAt(active: bool): Observation
      reads this
    {
      DispatcherObs(active, View(), delivered, Wiring())
    }

    /** lifecycle.isActive(), false once the lifecycle reference is released. */
    predicate Active()
      reads this, lifecycle
    {
      lifecycle != null && lifecycle.active
    }

    /** readyForEvent */
    predicate ReadyForEvent()
      requires lifecycle != null
      reads this, lifecycle
    {
      Ready(lifecycle.active, View())
    }

    /** Creates the dispatcher and subscribes it to the lifecycle's active-change and destroy lists. */
    constructor (lifecycle: BaseLifecycle, storeWhileInactive: bool, ghost tag: string)
      modifies lifecycle
      ensures Valid() && this.lifecycle == lifecycle && this.tag == tag && View() == NewDispatcher(storeWhileInactive)
      ensures onDestroyListeners == [] && delivered == [] && destroyNotified == []
      ensures lifecycle.activeChangeListeners == old(lifecycle.activeChangeListeners) + [DispatcherOnActive(this)]
      ensures lifecycle.onDestroyListeners == old(lifecycle.onDestroyListeners) + [DispatcherOnDestroy(this)]
      ensures lifecycle.dispatchers == old(lifecycle.dispatchers) + {this}
      ensures lifecycle.eventDispatchers == old(lifecycle.eventDispatchers)
      ensures lifecycle.active == old(lifecycle.active) && lifecycle.destroyed == old(lifecycle.destroyed)
      ensures lifecycle.restored == old(lifecycle.restored) && lifecycle.newLifecycle == old(lifecycle.newLifecycle)
      ensures lifecycle.notified == old(lifecycle.notified)
    {
      this.lifecycle := lifecycle;
      this.storeWhileInactive := storeWhileInactive;
      this.tag := tag;
      listener := None;
      pendingEvents := [];
      onDestroyListeners := [];
      destroyed := false;
      delivered := [];
      destroyNotified := [];
      new;
      lifecycle.activeChangeListeners := lifecycle.activeChangeListeners + [DispatcherOnActive(this)];
      lifecycle.onDestroyListeners := lifecycle.onDestroyListeners + [DispatcherOnDestroy(this)];
      lifecycle.dispatchers := lifecycle.dispatchers + {this};
    }

    /** onActiveChange: whatever the new value, try to drain the queue. */
    method OnActiveChange(active: bool)
      requires Valid() && !destroyed
      modifies this
      ensures Valid() && Wiring() == old(Wiring())
      ensures View() == Drain(Active(), old(View())).state
      ensures delivered == old(delivered) + Drain(Active(), old(View())).out
    {
      DispatchPendingIfReady();
    }

    /**
     * onDestroy: destroyed := true; every destroy listener of a snapshot of the list is called once,
     * in order, with this dispatcher (a group then unregisters it); then listener, lifecycle and queue
     * are released and the list is emptied.
     */
    method OnDestroy()
      modifies this, Groups(onDestroyListeners)
      ensures Valid() && destroyed && View() == Destroyed(old(View()))
      ensures lifecycle == null && onDestroyListeners == [] && delivered == old(delivered)
      ensures destroyNotified == old(destroyNotified) + CallbackIds(old(onDestroyListeners))
      ensures forall g :: g in Groups(old(onDestroyListeners)) ==>
        g.eventReceivers == RemoveN(old(g.eventReceivers), Dispatched(this), Count(old(onDestroyListeners), Group(g)))
    {
      destroyed := true;
      NotifyOnDestroyListeners();
      lifecycle := null;
      listener := None;
      pendingEvents := [];
      onDestroyListeners := [];
    }

    /** The loop of onDestroy: each listener of a snapshot of the list is called once, in order. */
    method NotifyOnDestroyListeners()
      modifies this, Groups(onDestroyListeners)
      ensures View() == old(View()) && lifecycle == old(lifecycle) && delivered == old(delivered)
      ensures destroyNotified == old(destroyNotified) + CallbackIds(old(onDestroyListeners))
      ensures forall g :: g in Groups(old(onDestroyListeners)) ==>
        g.eventReceivers == RemoveN(old(g.eventReceivers), Dispatched(this), Count(old(onDestroyListeners), Group(g)))
    {
      var snapshot := onDestroyListeners;
      ghost var groups := Groups(snapshot);
      ghost var start := Members(groups);
      assert snapshot[..0] == [];
      var i := 0;
      while i < |snapshot|
        invariant 0 <= i <= |snapshot|
        invariant View() == old(View()) && lifecycle == old(lifecycle) && delivered == old(delivered)
        invariant destroyNotified == old(destroyNotified) + CallbackIds(snapshot[..i])
        invariant forall g :: g in groups ==>
          g.eventReceivers == RemoveN(start[g], Dispatched(this), Count(snapshot[..i], Group(g)))
      {
        CallbackIdsStep(snapshot, i);
        NotifyStep(snapshot, i, groups, start);
        i := i + 1;
      }
      assert snapshot[..i] == snapshot;
      assert forall g :: g in groups ==> start[g] == old(g.eventReceivers);
    }

    /** One pass of the loop of onDestroy: the listener snapshot[i] is called. */
    method NotifyStep(snapshot: seq<ReceiverDestroyListener>, i: nat,
                      ghost groups: set<EventReceivers>, ghost start: map<EventReceivers, seq<Receiver>>)
      requires i < |snapshot| && groups == Groups(snapshot) && groups <= start.Keys
      requires forall g :: g in groups ==>
        g.eventReceivers == RemoveN(start[g], Dispatched(this), Count(snapshot[..i], Group(g)))
      modifies this, GroupOf(snapshot[i])
      ensures View() == old(View()) && lifecycle == old(lifecycle) && delivered == old(delivered)
      ensures destroyNotified == old(destroyNotified) + CallbackIds([snapshot[i]])
      ensures forall g :: g in groups ==>
        g.eventReceivers == RemoveN(start[g], Dispatched(this), Count(snapshot[..i + 1], Group(g)))
    {
      var entry := snapshot[i];
      CallOnDestroy(entry);
      forall g | g in groups
        ensures g.eventReceivers == RemoveN(start[g], Dispatched(this), Count(snapshot[..i + 1], Group(g)))
      {
        CountPrefixStep(snapshot, i, Group(g));
        if entry != Group(g) {
          assert g !in GroupOf(entry);
          assert g.eventReceivers == old(g.eventReceivers);
        }
      }
    }

    /** The call listener.onDestroy(this) on one destroy listener. */
    method CallOnDestroy(entry: ReceiverDestroyListener)
      modifies this, GroupOf(entry)
      ensures destroyed == old(destroyed) && listener == old(listener) && pendingEvents == old(pendingEvents)
      ensures lifecycle == old(lifecycle) && delivered == old(delivered)
      ensures destroyNotified == old(destroyNotified) + CallbackIds([entry])
      ensures onDestroyListeners == if entry.Group? then RemoveFirst(old(onDestroyListeners), entry) else old(onDestroyListeners)
      ensures forall g :: g in GroupOf(entry) ==> g.eventReceivers == RemoveFirst(old(g.eventReceivers), Dispatched(this))
    {
      match entry {
        case Group(g) =>
          g.OnDestroy(Dispatched(this));
        case ReceiverDestroyCallback(id) =>
          destroyNotified := destroyNotified + [id];
      }
    }

    /** setListener: replace the listener (None clears it), then drain if ready. */
    method SetListener(l: Option<ListenerId>)
      requires Valid() && !destroyed
      modifies this
      ensures Valid() && Wiring() == old(Wiring())
      ensures View() == WithListener(Active(), old(View()), l).state
      ensures delivered == old(delivered) + WithListener(Active(), old(View()), l).out
    {
      listener := l;
      DispatchPendingIfReady();
    }

    /** dispatchEvent: one call listener.onEvent(e). The source throws when the listener is null;
        the precondition is discharged at both call sites, so that throw cannot happen. */
    method DispatchEvent(e: Event)
      requires listener.Some?
      modifies this`delivered
      ensures delivered == old(delivered) + [Delivery(listener.value, e)]
    {
      delivered := delivered + [Delivery(listener.value, e)];
    }

    /** dispatchPendingIfReady: when ready, deliver and remove the queue's events front to back. */
    method DispatchPendingIfReady()
      requires Valid() && !destroyed
      modifies this
      ensures Valid() && Wiring() == old(Wiring())
      ensures View() == Drain(Active(), old(View())).state
      ensures delivered == old(delivered) + Drain(Active(), old(View())).out
    {
      if ReadyForEvent() {
        DispatchAllPending();
      }
    }

    /** The loop of dispatchPendingIfReady: deliver and remove the head of the queue until it is empty. */
    method DispatchAllPending()
      requires listener.Some?
      modifies this`pendingEvents, this`delivered
      ensures pendingEvents == []
      ensures delivered == old(delivered) + Deliveries(listener.value, old(pendingEvents))
    {
      while pendingEvents != []
        invariant delivered + Deliveries(listener.value, pendingEvents) ==
                  old(delivered) + Deliveries(listener.value, old(pendingEvents))
        decreases |pendingEvents|
      {
        assert Deliveries(listener.value, pendingEvents) ==
          [Delivery(listener.value, pendingEvents[0])] + Deliveries(listener.value, pendingEvents[1..]);
        DispatchEvent(pendingEvents[0]);
        pendingEvents := pendingEvents[1..];
      }
    }

    /** postEventSync: drop when destroyed, deliver when ready, else queue or drop. */
    method PostEventSync(e: Event)
      requires Valid()
      modifies this
      ensures Valid() && Wiring() == old(Wiring())
      ensures View() == Post(Active(), old(View()), e).state
      ensures delivered == old(delivered) + Post(Active(), old(View()), e).out
    {
      if destroyed {
      } else if ReadyForEvent() {
        DispatchEvent(e);
      } else if storeWhileInactive {
        pendingEvents := pendingEvents + [e];
      }
    }

    /** postEvent called on the main thread. */
    method PostEvent(e: Event)
      requires Valid()
      modifies this
      ensures Valid() && Wiring() == old(Wiring())
      ensures View() == Post(Active(), old(View()), e).state
      ensures delivered == old(delivered) + Post(Active(), old(View()), e).out
    {
      PostEventSync(e);
    }

    predicate IsDestroyed()
      reads this
    {
      destroyed
    }

    method AddOnDestroyListener(l: ReceiverDestroyListener)
      modifies this`onDestroyListeners
      ensures onDestroyListeners == old(onDestroyListeners) + [l]
    {
      onDestroyListeners := onDestroyListeners + [l];
    }

    method RemoveOnDestroyListener(l: ReceiverDestroyListener)
      modifies this`onDestroyListeners
      ensures onDestroyListeners == RemoveFirst(old(onDestroyListeners), l)
    {
      onDestroyListeners := RemoveFirst(onDestroyListeners, l);
    }
  }

  // ===========================================================================

  /**
   * UnmanagedEventReceiver: a receiver without lifecycle or queue. Its abstract onEvent is recorded
   * in received.
   */
  class UnmanagedEventReceiver {
    var destroyed: bool
    var listeners: seq<ReceiverDestroyListener>
    /** The calls onEvent(e) made so far, in order. */
    var received: seq<Event>
    /** The client destroy callbacks called so far, in order. */
    var destroyNotified: seq<ListenerId>

    /** Everything except the destroy listener list. */
    ghost function Core(): (bool, seq<Event>, seq<ListenerId>)
      reads this
    {
      (destroyed, received, destroyNotified)
    }

    constructor ()
      ensures !destroyed && listeners == [] && received == [] && destroyNotified == []
    {
      destroyed := false;
      listeners := [];
      received := [];
      destroyNotified := [];
    }

    /** postEvent on the main thread: onEvent(e) unless destroyed. */
    method PostEvent(e: Event)
      modifies this`received
      ensures received == if destroyed then old(received) else old(received) + [e]
    {
      if destroyed {
        return;
      }
      received := received + [e];
    }

    predicate IsDestroyed()
      reads this
    {
      destroyed
    }

    /** destroy: destroyed := true, then the destroy listeners are notified. */
    method Destroy()
      modifies this, Groups(listeners)
      ensures destroyed && received == old(received)
      ensures destroyNotified == old(destroyNotified) + CallbackIds(old(listeners))
      ensures listeners == NonGroups(old(listeners))
      ensures forall g :: g in Groups(old(listeners)) ==>
        g.eventReceivers == RemoveN(old(g.eventReceivers), Unmanaged(this), Count(old(listeners), Group(g)))
    {
      destroyed := true;
      NotifyOnDestroyListeners();
    }

    /**
     * notifyOnDestroyListeners: each listener of a snapshot of the list is called once, in order,
     * with this receiver. The list itself is not cleared; each group removes its own entry.
     */
    method NotifyOnDestroyListeners()
      modifies this, Groups(listeners)
      ensures destroyed == old(destroyed) && received == old(received)
      ensures destroyNotified == old(destroyNotified) + CallbackIds(old(listeners))
      ensures listeners == NonGroups(old(listeners))
      ensures forall g :: g in Groups(old(listeners)) ==>
        g.eventReceivers == RemoveN(old(g.eventReceivers), Unmanaged(this), Count(old(listeners), Group(g)))
    {
      var snapshot := listeners;
      ghost var groups := Groups(snapshot);
      ghost var start := Members(groups);
      assert snapshot[..0] == [];
      var i := 0;
      while i < |snapshot|
        invariant 0 <= i <= |snapshot|
        invariant destroyed == old(destroyed) && received == old(received)
        invariant destroyNotified == old(destroyNotified) + CallbackIds(snapshot[..i])
        invariant listeners == NonGroups(snapshot[..i]) + snapshot[i..]
        invariant forall g :: g in groups ==>
          g.eventReceivers == RemoveN(start[g], Unmanaged(this), Count(snapshot[..i], Group(g)))
      {
        CallbackIdsStep(snapshot, i);
        NotifyStep(snapshot, i, groups, start);
        i := i + 1;
      }
      assert snapshot[..i] == snapshot;
      assert forall g :: g in groups ==> start[g] == old(g.eventReceivers);
    }

    /** One pass of the loop of notifyOnDestroyListeners: the listener snapshot[i] is called. */
    method NotifyStep(snapshot: seq<ReceiverDestroyListener>, i: nat,
                      ghost groups: set<EventReceivers>, ghost start: map<EventReceivers, seq<Receiver>>)
      requires i < |snapshot| && groups == Groups(snapshot) && groups <= start.Keys
      requires listeners == NonGroups(snapshot[..i]) + snapshot[i..]
      requires forall g :: g in groups ==>
        g.eventReceivers == RemoveN(start[g], Unmanaged(this), Count(snapshot[..i], Group(g)))
      modifies this, GroupOf(snapshot[i])
      ensures destroyed == old(destroyed) && received == old(received)
      ensures destroyNotified == old(destroyNotified) + CallbackIds([snapshot[i]])
      ensures listeners == NonGroups(snapshot[..i + 1]) + snapshot[i + 1..]
      ensures forall g :: g in groups ==>
        g.eventReceivers == RemoveN(start[g], Unmanaged(this), Count(snapshot[..i + 1], Group(g)))
    {
      var entry := snapshot[i];
      NonGroupsStep(snapshot, i);
      CallOnDestroy(entry);
      forall g | g in groups
        ensures g.eventReceivers == RemoveN(start[g], Unmanaged(this), Count(snapshot[..i + 1], Group(g)))
      {
        CountPrefixStep(snapshot, i, Group(g));
        if entry != Group(g) {
          assert g !in GroupOf(entry);
          assert g.eventReceivers == old(g.eventReceivers);
        }
      }
    }

    /** The call listener.onDestroy(this) on one destroy listener. */
    method CallOnDestroy(entry: ReceiverDestroyListener)
      modifies this, GroupOf(entry)
      ensures destroyed == old(destroyed) && received == old(received)
      ensures destroyNotified == old(destroyNotified) + CallbackIds([entry])
      ensures listeners == if entry.Group? then RemoveFirst(old(listeners), entry) else old(listeners)
      ensures forall g :: g in GroupOf(entry) ==> g.eventReceivers == RemoveFirst(old(g.eventReceivers), Unmanaged(this))
    {
      match entry {
        case Group(g) =>
          g.OnDestroy(Unmanaged(this));
        case ReceiverDestroyCallback(id) =>
          destroyNotified := destroyNotified + [id];
      }
    }

    method AddOnDestroyListener(l: ReceiverDestroyListener)
      modifies this`listeners
      ensures listeners == old(listeners) + [l]
    {
      listeners := listeners + [l];
    }

    method RemoveOnDestroyListener(l: ReceiverDestroyListener)
      modifies this`listeners
      ensures listeners == RemoveFirst(old(listeners), l)
    {
      listeners := RemoveFirst(listeners, l);
    }
  }

  // ===========================================================================

  /**
   * EventReceivers: a fan-out list of receivers. Each registered receiver gets this group as a
   * destroy listener, and a receiver that reports its destruction is unregistered.
   */
  class EventReceivers {
    var eventReceivers: seq<Receiver>

    constructor ()
      ensures eventReceivers == []
    {
      eventReceivers := [];
    }

    /** registerEventReceiver: append (no duplicate check) and subscribe to the receiver's destroy. */
    method RegisterEventReceiver(r: Receiver)
      modifies this, r.Obj()
      ensures eventReceivers == old(eventReceivers) + [r]
      ensures r.DestroyListeners() == old(r.DestroyListeners()) + [Group(this)]
      ensures r.Dispatched? ==> r.d.Core() == old(r.d.Core())
      ensures r.Unmanaged? ==> r.u.Core() == old(r.u.Core())
    {
      eventReceivers := eventReceivers + [r];
      match r {
        case Dispatched(d) => d.AddOnDestroyListener(Group(this));
        case Unmanaged(u) => u.AddOnDestroyListener(Group(this));
      }
    }

    /** unregisterEventReceiver: unsubscribe, then remove the first occurrence of the receiver. */
    method UnregisterEventReceiver(r: Receiver)
      modifies this, r.Obj()
      ensures eventReceivers == RemoveFirst(old(eventReceivers), r)
      ensures r.DestroyListeners() == RemoveFirst(old(r.DestroyListeners()), Group(this))
      ensures r.Dispatched? ==> r.d.Core() == old(r.d.Core())
      ensures r.Unmanaged? ==> r.u.Core() == old(r.u.Core())
    {
      match r {
        case Dispatched(d) => d.RemoveOnDestroyListener(Group(this));
        case Unmanaged(u) => u.RemoveOnDestroyListener(Group(this));
      }
      eventReceivers := RemoveFirst(eventReceivers, r);
    }

    /** onDestroy: a destroyed receiver is unregistered. */
    method OnDestroy(r: Receiver)
      modifies this, r.Obj()
      ensures eventReceivers == RemoveFirst(old(eventReceivers), r)
      ensures r.DestroyListeners() == RemoveFirst(old(r.DestroyListeners()), Group(this))
      ensures r.Dispatched? ==> r.d.Core() == old(r.d.Core())
      ensures r.Unmanaged? ==> r.u.Core() == old(r.u.Core())
    {
      UnregisterEventReceiver(r);
    }

    /**
     * postEvent: every listed receiver gets postEvent(e) once per occurrence, in list order, so
     * each ends as n posts of e leave it, n being its number of occurrences (see PostNDispatched
     * and PostNUnmanaged for what that is).
     */
    method PostEvent(e: Event)
      requires forall x :: x in eventReceivers ==> x.Valid()
      modifies Objects(eventReceivers)
      ensures forall x :: x in eventReceivers ==> x.Valid() && x.Obs() == PostN(old(x.Obs()), e, Count(eventReceivers, x))
    {
      ghost var start := map x | x in eventReceivers :: x.Obs();
      GroupNotAReceiver(eventReceivers, this);
      assert eventReceivers[..0] == [];
      var i := 0;
      while i < |eventReceivers|
        invariant 0 <= i <= |eventReceivers|
        decreases |eventReceivers| - i
        invariant forall x :: x in eventReceivers ==>
          x in start && x.Valid() && x.Obs() == PostN(start[x], e, Count(eventReceivers[..i], x))
      {
        assert eventReceivers[i].Obj() in Objects(eventReceivers);
        PostStep(i, e, start);
        i := i + 1;
      }
      assert eventReceivers[..i] == eventReceivers;
    }

    /** One pass of the loop of postEvent: the receiver at position i gets postEvent(e). */
    method PostStep(i: nat, e: Event, ghost start: map<Receiver, Observation>)
      requires i < |eventReceivers|
      requires forall x :: x in eventReceivers ==>
        x in start && x.Valid() && x.Obs() == PostN(start[x], e, Count(eventReceivers[..i], x))
      modifies eventReceivers[i].Obj()
      ensures forall x :: x in eventReceivers ==>
        x in start && x.Valid() && x.Obs() == PostN(start[x], e, Count(eventReceivers[..i + 1], x))
    {
      var r := eventReceivers[i];
      PostTo(r, e);
      forall x | x in eventReceivers
        ensures x.Valid() && x.Obs() == PostN(start[x], e, Count(eventReceivers[..i + 1], x))
      {
        CountPrefixStep(eventReceivers, i, x);
        if x != r {
          assert x.Obj() != r.Obj();
          assert x.Obs() == old(x.Obs());
        }
      }
    }
  }

  // ===========================================================================

  /**
   * What postEvent can change in a receiver and what it depends on: for a dispatcher, its
   * lifecycle's active flag, its dispatch state and its deliveries; for an unmanaged receiver,
   * its destroyed flag and the events it got. The remaining fields ride along unchanged.
   */
  datatype Observation =
    | DispatcherObs(active: bool, view: DispatcherState, delivered: seq<Delivery>,
                    wiring: (BaseLifecycle?, seq<ReceiverDestroyListener>, seq<ListenerId>))
    | UnmanagedObs(destroyed: bool, received: seq<Event>,
                   listeners: seq<ReceiverDestroyListener>, destroyNotified: seq<ListenerId>)

  /** dispatchPendingIfReady on an observation (an unmanaged receiver has no queue). */
  function DrainObs(o: Observation): Observation
  {
    match o
    case DispatcherObs(active, view, delivered, wiring) =>
      var s := Drain(active, view);
      DispatcherObs(active, s.state, delivered + s.out, wiring)
    case UnmanagedObs(_, _, _, _) => o
  }

  function Subscribed(entry: ActiveChangeListener): set<LifecycleEventDispatcher>
  {
    if entry.DispatcherOnActive? then {entry.d} else {}
  }

  function DestroySubscribed(entry: LifecycleDestroyListener): set<LifecycleEventDispatcher>
  {
    if entry.DispatcherOnDestroy? then {entry.d} else {}
  }

  /**
   * onDestroy on a dispatcher: destroyed, listener and queue released, lifecycle reference released,
   * own destroy list emptied, and its client callbacks recorded as called, in list order.
   */
  function DestroyedObs(o: Observation): Observation
  {
    match o
    case DispatcherObs(active, view, delivered, wiring) =>
      DispatcherObs(active, Destroyed(view), delivered, (null, [], wiring.2 + CallbackIds(wiring.1)))
    case UnmanagedObs(_, _, _, _) => o
  }

  function GroupOf(entry: ReceiverDestroyListener): set<EventReceivers>
  {
    if entry.Group? then {entry.g} else {}
  }

  /**
   * How often group g holds receiver x once the dispatchers ds have destroyed themselves, given the
   * group's receivers before and each dispatcher's destroy listener list ls[d] at that time: a
   * dispatcher of ds has lost one entry for each time g is in its list (down to none), and every
   * other receiver, unmanaged ones included, keeps its count.
   */
  function Remaining(before: seq<Receiver>, x: Receiver, g: EventReceivers, ds: set<LifecycleEventDispatcher>,
                     ls: map<LifecycleEventDispatcher, seq<ReceiverDestroyListener>>): nat
  {
    if x.Dispatched? && x.d in ds && x.d in ls then Monus(Count(before, x), Count(ls[x.d], Group(g)))
    else Count(before, x)
  }

  /** The receivers of group g went from before to after as the destruction of ds prescribes. */
  ghost predicate Released(before: seq<Receiver>, after: seq<Receiver>, g: EventReceivers,
                           ds: set<LifecycleEventDispatcher>, ls: map<LifecycleEventDispatcher, seq<ReceiverDestroyListener>>)
  {
    && (forall x :: x in before ==> Count(after, x) == Remaining(before, x, g, ds, ls))
    && (forall x :: x in after ==> Count(after, x) == Remaining(before, x, g, ds, ls))
  }

  /** Every group of gs went from its receivers in start as the destruction of ds prescribes. */
  ghost predicate AllReleased(gs: set<EventReceivers>, start: map<EventReceivers, seq<Receiver>>,
                              ds: set<LifecycleEventDispatcher>, ls: map<LifecycleEventDispatcher, seq<ReceiverDestroyListener>>)
    reads gs
  {
    forall g :: g in gs ==> g in start && Released(start[g], g.eventReceivers, g, ds, ls)
  }

  /** One more dispatcher destroys itself: the group drops that dispatcher as often as it is in
      the dispatcher's destroy list, and nothing else. */
  lemma ReleasedStep(before: seq<Receiver>, mid: seq<Receiver>, g: EventReceivers, ds: set<LifecycleEventDispatcher>,
                     ls: map<LifecycleEventDispatcher, seq<ReceiverDestroyListener>>, d: LifecycleEventDispatcher)
    requires Released(before, mid, g, ds, ls) && d in ls && d !in ds
    ensures Released(before, RemoveN(mid, Dispatched(d), Count(ls[d], Group(g))), g, ds + {d}, ls)
  {
    var after := RemoveN(mid, Dispatched(d), Count(ls[d], Group(g)));
    forall x | x in before || x in after
      ensures Count(after, x) == Remaining(before, x, g, ds + {d}, ls)
    {
      CountRemoveN(mid, Dispatched(d), Count(ls[d], Group(g)), x);
      if x !in before && x !in mid {
        CountAbsent(before, x);
        CountAbsent(mid, x);
      }
    }
    assert Released(before, after, g, ds + {d}, ls);
  }

  /** Destroying a destroyed dispatcher changes nothing (its own destroy list is already empty). */
  lemma DestroyedObsIdempotent(o: Observation)
    ensures DestroyedObs(DestroyedObs(o)) == DestroyedObs(o)
  {
    match o {
      case DispatcherObs(_, _, _, wiring) =>
        assert CallbackIds([]) == [];
        assert wiring.2 + CallbackIds(wiring.1) + [] == wiring.2 + CallbackIds(wiring.1);
      case UnmanagedObs(_, _, _, _) =>
    }
  }

  /** setListener(null) on a dispatcher: the listener is cleared, nothing else changes. */
  function Unbound(o: Observation): Observation
  {
    match o
    case DispatcherObs(active, view, delivered, wiring) => DispatcherObs(active, view.(listener := None), delivered, wiring)
    case UnmanagedObs(_, _, _, _) => o
  }

  /** setListener(l) on a dispatcher: the listener is replaced, then the queue drains if ready. */
  function Rebound(o: Observation, l: Option<ListenerId>): Observation
  {
    match o
    case DispatcherObs(active, view, delivered, wiring) =>
      var s := WithListener(active, view, l);
      DispatcherObs(active, s.state, delivered + s.out, wiring)
    case UnmanagedObs(_, _, _, _) => o
  }

  /** One postEvent(e) on a receiver. */
  function PostObs(o: Observation, e: Event): Observation
  {
    match o
    case DispatcherObs(active, view, delivered, wiring) =>
      var s := Post(active, view, e);
      DispatcherObs(active, s.state, delivered + s.out, wiring)
    case UnmanagedObs(destroyed, received, listeners, notified) =>
      UnmanagedObs(destroyed, if destroyed then received else received + [e], listeners, notified)
  }

  /** n calls postEvent(e) on a receiver. */
  function PostN(o: Observation, e: Event, n: nat): Observation
  {
    if n == 0 then o else PostObs(PostN(o, e, n - 1), e)
  }

  /** A dispatcher posted the same event n times goes through PostAll with n copies of it,
      and keeps its lifecycle, destroy listeners and callback log. */
  lemma {:induction false} PostNDispatched(active: bool, view: DispatcherState, delivered: seq<Delivery>,
                                            wiring: (BaseLifecycle?, seq<ReceiverDestroyListener>, seq<ListenerId>),
                                            e: Event, n: nat)
    ensures PostN(DispatcherObs(active, view, delivered, wiring), e, n) ==
      var s := PostAll(active, view, Repeat(e, n));
      DispatcherObs(active, s.state, delivered + s.out, wiring)
  {
    if n > 0 {
      PostNDispatched(active, view, delivered, wiring, e, n - 1);
      PostAllSnoc(active, view, Repeat(e, n - 1), e);
    }
  }

  /** An unmanaged receiver posted the same event n times gets it n times unless it is destroyed,
      and keeps everything else. */
  lemma {:induction false} PostNUnmanaged(destroyed: bool, received: seq<Event>,
                                           listeners: seq<ReceiverDestroyListener>, notified: seq<ListenerId>,
                                           e: Event, n: nat)
    ensures PostN(UnmanagedObs(destroyed, received, listeners, notified), e, n) ==
      UnmanagedObs(destroyed, if destroyed then received else received + Repeat(e, n), listeners, notified)
  {
    if n > 0 {
      PostNUnmanaged(destroyed, received, listeners, notified, e, n - 1);
      if !destroyed {
        assert received + Repeat(e, n - 1) + [e] == received + Repeat(e, n);
      }
    }
  }

  /** The call receiver.postEvent(e) through the EventReceiver interface. */
  method PostTo(r: Receiver, e: Event)
    requires r.Valid()
    modifies r.Obj()
    ensures r.Valid() && r.Obs() == PostObs(old(r.Obs()), e)
  {
    match r {
      case Dispatched(d) => d.PostEvent(e);
      case Unmanaged(u) => u.PostEvent(e);
    }
  }
}
