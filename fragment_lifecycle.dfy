/**
 * The registry of com.talk4date.android.lifecycle.FragmentLifecycle: its static state (the id
 * counter, fragment -> id, and per lifecycle type the map id -> lifecycle) as the fields of one
 * object, and the global FragmentLifecycleListener handlers as its methods.
 *
 * Every fragment gets two lifecycles under its id: a session lifecycle, kept across re-creation
 * when the fragment's saved state carries the id, and an instance lifecycle, replaced on every
 * creation. A FragmentLifecycle is a BaseLifecycle with the ActivityBasedLifecycle flags.
 */
module FragmentRegistry {
  import opened Wrappers
  import opened JavaInt
  import opened FragmentIds
  import opened Lifecycle

  /** An android.app.Fragment, by identity. */
  type Fragment = nat

  /** The savedInstanceState argument of onFragmentCreate: null for a new fragment, otherwise a
      bundle that may or may not hold the lifecycle id. */
  datatype SavedState = NoSavedState | Saved(id: Option<string>)

  datatype Exception = IllegalStateException | IllegalArgumentException

  /** How a handler ends: normally, or by throwing. */
  datatype Outcome = Completed | Thrown(exception: Exception)

  datatype LifecycleType = Session | Instance

  /** A lifecycle with no listeners, no dispatchers and no calls made, inactive and not destroyed. */
  ghost predicate Blank(l: BaseLifecycle)
    reads l, l.dispatchers
  {
    && l.Valid() && !l.active && !l.destroyed
    && l.activeChangeListeners == [] && l.onDestroyListeners == []
    && l.eventDispatchers == map[] && l.dispatchers == {} && l.notified == []
  }

  /** A lifecycle as `new FragmentLifecycle()` leaves it: blank, new and not restored. */
  ghost predicate Pristine(l: BaseLifecycle)
    reads l, l.dispatchers
  {
    Blank(l) && !l.restored && l.newLifecycle
  }

  /** A lifecycle that keeps its invariant and has not been destroyed. */
  ghost predicate Live(l: BaseLifecycle)
    reads l, l.dispatchers
  {
    l.Valid() && !l.destroyed
  }

  class FragmentLifecycles {
    /** processUniqueId: a random UUID string, fixed for the process. */
    const processUniqueId: string
    var lastId: int32
    /** How many ids newFragmentId has issued. */
    ghost var issued: nat
    var fragmentToId: map<Fragment, string>
    var sessionLifecycles: map<string, BaseLifecycle>
    var instanceLifecycles: map<string, BaseLifecycle>

    ghost function Lifecycles(): set<BaseLifecycle>
      reads this
    {
      sessionLifecycles.Values + instanceLifecycles.Values
    }

    ghost function Dispatchers(): set<LifecycleEventDispatcher>
      reads this, Lifecycles()
    {
      set l, d | l in Lifecycles() && d in l.dispatchers :: d
    }

    /**
     * The counter is lastId; every registered lifecycle is live; a session lifecycle is never also
     * an instance lifecycle, and no session lifecycle is stored under two ids (each is created for
     * one id).
     */
    ghost predicate Valid()
      reads this, Lifecycles(), Dispatchers()
    {
      && lastId == Wrap32(issued)
      && (forall id :: id in sessionLifecycles ==> Live(sessionLifecycles[id]))
      && (forall id :: id in instanceLifecycles ==> Live(instanceLifecycles[id]))
      && (forall i, j :: i in sessionLifecycles && j in instanceLifecycles ==>
            sessionLifecycles[i] != instanceLifecycles[j])
      && (forall i, j :: i in sessionLifecycles && j in sessionLifecycles && i != j ==>
            sessionLifecycles[i] != sessionLifecycles[j])
    }

    /** The registry's maps. */
    ghost function Maps(): (map<Fragment, string>, map<string, BaseLifecycle>, map<string, BaseLifecycle>)
      reads this
    {
      (fragmentToId, sessionLifecycles, instanceLifecycles)
    }

    function Registered(t: LifecycleType): map<string, BaseLifecycle>
      reads this
    {
      match t
      case Session => sessionLifecycles
      case Instance => instanceLifecycles
    }

    constructor (processUniqueId: string)
      ensures Valid() && this.processUniqueId == processUniqueId
      ensures lastId == 0 && issued == 0
      ensures fragmentToId == map[] && sessionLifecycles == map[] && instanceLifecycles == map[]
    {
      this.processUniqueId := processUniqueId;
      lastId := 0;
      issued := 0;
      fragmentToId := map[];
      sessionLifecycles := map[];
      instanceLifecycles := map[];
    }

    /** newFragmentId: lastId++, then the prefix followed by the new counter value. */
    method NewFragmentId() returns (id: string)
      requires lastId == Wrap32(issued)
      modifies this`lastId, this`issued
      ensures issued == old(issued) + 1 && lastId == Wrap32(issued)
      ensures id == NthFragmentId(processUniqueId, issued)
    {
      Wrap32Succ(issued);
      lastId := Wrap32(lastId as int + 1);
      issued := issued + 1;
      id := FragmentId(processUniqueId, lastId);
    }

    /**
     * lifecycle(type, fragment): the lifecycle of that type under the fragment's id. An unregistered
     * fragment, and a registered one whose id has no lifecycle of that type, throw
     * IllegalStateException.
     */
    function LifecycleOf(t: LifecycleType, f: Fragment): (r: Result<BaseLifecycle, Exception>)
      reads this
      ensures r.Success? <==> f in fragmentToId && fragmentToId[f] in Registered(t)
      ensures r.Success? ==> r.value in Lifecycles() && r.value == Registered(t)[fragmentToId[f]]
      ensures r.Failure? ==> r.error == IllegalStateException
    {
      if f !in fragmentToId then Failure(IllegalStateException)
      else if fragmentToId[f] !in Registered(t) then Failure(IllegalStateException)
      else Success(Registered(t)[fragmentToId[f]])
    }

    /** The session lifecycle a saved id refers to, if there is one. */
    ghost function SessionFor(saved: SavedState): set<BaseLifecycle>
      reads this
    {
      if saved.Saved? && saved.id.Some? && saved.id.value in sessionLifecycles
      then {sessionLifecycles[saved.id.value]} else {}
    }

    /**
     * onFragmentCreate. Without saved state: a fresh id, the fragment mapped to it, and a new
     * session and a new instance lifecycle under it. With saved state lacking the id:
     * IllegalArgumentException and nothing changes. With saved id x: see CreateWithId.
     */
    method OnFragmentCreate(f: Fragment, saved: SavedState) returns (outcome: Outcome)
      requires Valid()
      modifies this, SessionFor(saved)`restored, SessionFor(saved)`newLifecycle
      ensures Valid()
      ensures saved == Saved(None) ==>
        && outcome == Thrown(IllegalArgumentException)
        && issued == old(issued) && fragmentToId == old(fragmentToId)
        && sessionLifecycles == old(sessionLifecycles) && instanceLifecycles == old(instanceLifecycles)
      ensures saved == NoSavedState ==> outcome == Completed && CreatedNew(f)
      ensures saved.Saved? && saved.id.Some? ==> outcome == Completed && CreatedWithId(f, saved.id.value)
    {
      match saved {
        case NoSavedState =>
          CreateNew(f);
          outcome := Completed;
        case Saved(None) =>
          outcome := Thrown(IllegalArgumentException);
        case Saved(Some(x)) =>
          CreateWithId(f, x);
          outcome := Completed;
      }
    }

    /** What creating a new fragment leaves behind: the next id, the fragment mapped to it, and a
        new session and a new instance lifecycle under it. */
    twostate predicate CreatedNew(f: Fragment)
      reads this, Lifecycles(), Dispatchers()
    {
      var id := NthFragmentId(processUniqueId, issued);
      && issued == old(issued) + 1
      && fragmentToId == old(fragmentToId)[f := id]
      && id in sessionLifecycles && id in instanceLifecycles
      && sessionLifecycles == old(sessionLifecycles)[id := sessionLifecycles[id]]
      && instanceLifecycles == old(instanceLifecycles)[id := instanceLifecycles[id]]
      && fresh(sessionLifecycles[id]) && Pristine(sessionLifecycles[id])
      && fresh(instanceLifecycles[id]) && Pristine(instanceLifecycles[id])
    }

    /** What re-creating a fragment with saved id x leaves behind: the fragment mapped to x, a new
        instance lifecycle under x, and the session lifecycle under x kept (restored := false) when
        there is one, with everything but its restore flags as before, else a new one
        (restored := true); either way no longer new. */
    twostate predicate CreatedWithId(f: Fragment, x: string)
      reads this, Lifecycles(), Dispatchers()
    {
      && issued == old(issued)
      && fragmentToId == old(fragmentToId)[f := x]
      && x in sessionLifecycles && x in instanceLifecycles
      && instanceLifecycles == old(instanceLifecycles)[x := instanceLifecycles[x]]
      && fresh(instanceLifecycles[x]) && Pristine(instanceLifecycles[x])
      && !sessionLifecycles[x].newLifecycle
      && (x in old(sessionLifecycles) ==>
            && sessionLifecycles == old(sessionLifecycles)
            && !sessionLifecycles[x].restored
            && sessionLifecycles[x].Core() == old(sessionLifecycles[x].Core()))
      && (x !in old(sessionLifecycles) ==>
            && sessionLifecycles == old(sessionLifecycles)[x := sessionLifecycles[x]]
            && fresh(sessionLifecycles[x]) && Blank(sessionLifecycles[x])
            && sessionLifecycles[x].restored)
    }

    /** The branch of onFragmentCreate without saved state. */
    method CreateNew(f: Fragment)
      requires Valid()
      modifies this
      ensures Valid() && CreatedNew(f)
    {
      var id := NewFragmentId();
      MapFragment(f, id);
      var s := new BaseLifecycle();
      PutSession(id, s);
      PutInstance(id);
    }

    /** The branch of onFragmentCreate with saved id x. */
    method CreateWithId(f: Fragment, x: string)
      requires Valid()
      modifies this, SessionFor(Saved(Some(x)))`restored, SessionFor(Saved(Some(x)))`newLifecycle
      ensures Valid() && CreatedWithId(f, x)
    {
      MapWithInstance(f, x);
      TakeOverSession(x);
    }

    /** The first half of re-creation with saved id x: the fragment is mapped to x and a new
        instance lifecycle is stored under x; the session lifecycles are not touched. */
    method MapWithInstance(f: Fragment, x: string)
      requires Valid()
      modifies this`fragmentToId, this`instanceLifecycles
      ensures Valid() && fragmentToId == old(fragmentToId)[f := x] && sessionLifecycles == old(sessionLifecycles)
      ensures x in instanceLifecycles && instanceLifecycles == old(instanceLifecycles)[x := instanceLifecycles[x]]
      ensures fresh(instanceLifecycles[x]) && Pristine(instanceLifecycles[x])
    {
      MapFragment(f, x);
      PutInstance(x);
    }

    /** The session half of re-creation with saved id x: the lifecycle under x is kept with
        restored := false, or a new one is stored with restored := true; either is no longer new. */
    method TakeOverSession(x: string)
      requires Valid()
      modifies this`sessionLifecycles, SessionFor(Saved(Some(x)))`restored, SessionFor(Saved(Some(x)))`newLifecycle
      ensures Valid() && x in sessionLifecycles && !sessionLifecycles[x].newLifecycle
      ensures x in old(sessionLifecycles) ==>
        && sessionLifecycles == old(sessionLifecycles)
        && !sessionLifecycles[x].restored
        && sessionLifecycles[x].Core() == old(sessionLifecycles[x].Core())
      ensures x !in old(sessionLifecycles) ==>
        && sessionLifecycles == old(sessionLifecycles)[x := sessionLifecycles[x]]
        && fresh(sessionLifecycles[x]) && Blank(sessionLifecycles[x])
        && sessionLifecycles[x].restored
    {
      if x in sessionLifecycles {
        sessionLifecycles[x].MarkRecreated(false);
      } else {
        var s := new BaseLifecycle();
        s.MarkRecreated(true);
        PutSession(x, s);
      }
    }

    /** fragmentToId.put(f, id) */
    method MapFragment(f: Fragment, id: string)
      requires Valid()
      modifies this`fragmentToId
      ensures Valid() && fragmentToId == old(fragmentToId)[f := id]
    {
      fragmentToId := fragmentToId[f := id];
    }

    /** instanceLifecycles.put(id, new FragmentLifecycle()) */
    method PutInstance(id: string)
      requires Valid()
      modifies this`instanceLifecycles
      ensures Valid() && id in instanceLifecycles
      ensures instanceLifecycles == old(instanceLifecycles)[id := instanceLifecycles[id]]
      ensures fresh(instanceLifecycles[id]) && Pristine(instanceLifecycles[id])
    {
      var i := new BaseLifecycle();
      instanceLifecycles := instanceLifecycles[id := i];
    }

    /** sessionLifecycles.put(id, s) for a lifecycle s created just before. */
    method PutSession(id: string, s: BaseLifecycle)
      requires Valid() && Blank(s) && s !in Lifecycles()
      modifies this`sessionLifecycles
      ensures Valid() && sessionLifecycles == old(sessionLifecycles)[id := s]
    {
      sessionLifecycles := sessionLifecycles[id := s];
    }

    /** onFragmentSaveInstanceState: the bundle written holds the fragment's id, null for an
        unregistered fragment. A re-created fragment thus never takes the no-saved-state path. */
    function SaveInstanceState(f: Fragment): (saved: SavedState)
      reads this
      ensures saved != NoSavedState
      ensures saved.id.Some? <==> f in fragmentToId
      ensures saved.id.Some? ==> saved.id.value == fragmentToId[f]
    {
      Saved(if f in fragmentToId then Some(fragmentToId[f]) else None)
    }

    /** The objects setActive on the lifecycle of type t of fragment f may change. */
    ghost function ActiveFootprint(t: LifecycleType, f: Fragment): set<object>
      reads this, Lifecycles()
    {
      var r := LifecycleOf(t, f);
      if r.Success? then LifecycleFootprint(r.value) else {}
    }

    /** l.setActive(v) on a registered lifecycle; the others are not touched. */
    method SetActiveOn(l: BaseLifecycle, v: bool)
      requires Valid() && l in Lifecycles()
      modifies LifecycleFootprint(l)
      ensures Valid() && SwitchedFrom(l, v, old(SwitchOf(l, v)))
    {
      l.SetActive(v);
    }

    /** onFragmentResume: the session lifecycle, then the instance lifecycle, become active. */
    method OnFragmentResume(f: Fragment) returns (outcome: Outcome)
      requires Valid()
      modifies ActiveFootprint(Session, f), ActiveFootprint(Instance, f)
      ensures Valid() && SetBoth(old(LifecycleOf(Session, f)), old(LifecycleOf(Instance, f)), true, outcome)
    {
      outcome := SetBothActive(f, true);
    }

    /** onFragmentPause: the session lifecycle, then the instance lifecycle, become inactive. */
    method OnFragmentPause(f: Fragment) returns (outcome: Outcome)
      requires Valid()
      modifies ActiveFootprint(Session, f), ActiveFootprint(Instance, f)
      ensures Valid() && SetBoth(old(LifecycleOf(Session, f)), old(LifecycleOf(Instance, f)), false, outcome)
    {
      outcome := SetBothActive(f, false);
    }

    /** The effect of lifecycle(SESSION, f).setActive(v) followed by lifecycle(INSTANCE, f).setActive(v):
        the first failed lookup throws IllegalStateException and ends the handler, leaving a
        registered instance lifecycle untouched; a lifecycle whose setActive ran was switched to v. */
    twostate predicate SetBoth(s: Result<BaseLifecycle, Exception>, i: Result<BaseLifecycle, Exception>,
                               v: bool, outcome: Outcome)
      reads if s.Success? then LifecycleFootprint(s.value) else {}, if i.Success? then LifecycleFootprint(i.value) else {}
    {
      && outcome == (if s.Success? && i.Success? then Completed else Thrown(IllegalStateException))
      && (s.Success? ==> SwitchedFrom(s.value, v, old(SwitchOf(s.value, v))))
      && (s.Success? && i.Success? ==> SwitchedFrom(i.value, v, old(SwitchOf(i.value, v))))
      && (s.Failure? && i.Success? ==> SwitchOf(i.value, v) == old(SwitchOf(i.value, v)))
    }

    method SetBothActive(f: Fragment, v: bool) returns (outcome: Outcome)
      requires Valid()
      modifies ActiveFootprint(Session, f), ActiveFootprint(Instance, f)
      ensures Valid() && SetBoth(old(LifecycleOf(Session, f)), old(LifecycleOf(Instance, f)), v, outcome)
    {
      var s := LifecycleOf(Session, f);
      if s.Failure? {
        return Thrown(s.error);
      }
      ghost var i := LifecycleOf(Instance, f);
      ghost var bs := SwitchOf(s.value, v);
      ghost var bi := if i.Success? then SwitchOf(i.value, v) else bs;
      if i.Success? {
        LiveDisjoint(s.value, i.value);
      }
      SetActiveOn(s.value, v);
      assert SwitchedFrom(s.value, v, bs);
      assert i == LifecycleOf(Instance, f) && (i.Success? ==> SwitchOf(i.value, v) == bi);
      outcome := SetInstanceActive(f, s.value, v);
      assert i.Success? ==> SwitchedFrom(i.value, v, bi);
      assert i.Failure? ==> Thrown(IllegalStateException) == outcome;
    }

    /** The second half of onFragmentResume/onFragmentPause, once the session lifecycle s has been
        switched: lifecycle(INSTANCE, f).setActive(v), leaving s as it is. */
    method SetInstanceActive(f: Fragment, ghost s: BaseLifecycle, v: bool) returns (outcome: Outcome)
      requires Valid() && LifecycleOf(Session, f) == Success(s)
      modifies ActiveFootprint(Instance, f)
      ensures Valid() && unchanged(LifecycleFootprint(s))
      ensures outcome == if old(LifecycleOf(Instance, f)).Success? then Completed else Thrown(IllegalStateException)
      ensures var i := old(LifecycleOf(Instance, f)); i.Success? ==> SwitchedFrom(i.value, v, old(SwitchOf(i.value, v)))
    {
      var i := LifecycleOf(Instance, f);
      if i.Failure? {
        return Thrown(i.error);
      }
      LiveDisjoint(s, i.value);
      SetActiveOn(i.value, v);
      outcome := Completed;
    }

    /** The objects onFragmentDestroy may change besides the registry: the fragment's session
        lifecycle, its dispatchers and the groups those dispatchers notify when destroyed. */
    ghost function DestroyFootprint(f: Fragment): set<object>
      reads this, Lifecycles(), Dispatchers()
    {
      var r := LifecycleOf(Session, f);
      if r.Success? then LifecycleFootprint(r.value) + r.value.DispatcherGroups() else {}
    }

    /**
     * onFragmentDestroy. The instance lifecycle under the fragment's id leaves its map (it is not
     * destroyed); then the session lifecycle is looked up (an unregistered fragment, or an id with
     * no session lifecycle, throws IllegalStateException here and the fragment stays mapped). When
     * the fragment is being removed or its activity is finishing, the session lifecycle leaves its
     * map and is destroyed; otherwise only its listeners are invalidated and it stays. Finally the
     * fragment's id mapping is removed.
     */
    method OnFragmentDestroy(f: Fragment, removingOrFinishing: bool) returns (outcome: Outcome)
      requires Valid()
      modifies this`instanceLifecycles, this`sessionLifecycles, this`fragmentToId, DestroyFootprint(f)
      ensures Valid()
      ensures instanceLifecycles ==
        if f in old(fragmentToId) then old(instanceLifecycles) - {old(fragmentToId[f])} else old(instanceLifecycles)
      ensures old(LifecycleOf(Session, f)).Failure? ==>
        && outcome == Thrown(IllegalStateException)
        && fragmentToId == old(fragmentToId) && sessionLifecycles == old(sessionLifecycles)
      ensures old(LifecycleOf(Session, f)).Success? ==>
        var s := old(LifecycleOf(Session, f)).value;
        && outcome == Completed && fragmentToId == old(fragmentToId) - {f}
        && (removingOrFinishing ==>
              sessionLifecycles == old(sessionLifecycles) - {old(fragmentToId[f])} && DestroyedFrom(s, old(SnapshotOf(s))))
        && (!removingOrFinishing ==>
              sessionLifecycles == old(sessionLifecycles) && InvalidatedFrom(s, old(SnapshotOf(s))))
    {
      if f in fragmentToId {
        RemoveInstance(fragmentToId[f]);
      }
      ghost var r := LifecycleOf(Session, f);
      assert r == old(LifecycleOf(Session, f));
      assert r.Success? ==> SnapshotOf(r.value) == old(SnapshotOf(r.value));
      outcome := ReleaseSession(f, removingOrFinishing);
    }

    /** The part of onFragmentDestroy after the instance lifecycle is removed. */
    method ReleaseSession(f: Fragment, removingOrFinishing: bool) returns (outcome: Outcome)
      requires Valid()
      modifies this`sessionLifecycles, this`fragmentToId, DestroyFootprint(f)
      ensures Valid() && instanceLifecycles == old(instanceLifecycles)
      ensures old(LifecycleOf(Session, f)).Failure? ==>
        && outcome == Thrown(IllegalStateException)
        && fragmentToId == old(fragmentToId) && sessionLifecycles == old(sessionLifecycles)
      ensures old(LifecycleOf(Session, f)).Success? ==>
        var s := old(LifecycleOf(Session, f)).value;
        && outcome == Completed && fragmentToId == old(fragmentToId) - {f}
        && (removingOrFinishing ==>
              sessionLifecycles == old(sessionLifecycles) - {old(fragmentToId[f])} && DestroyedFrom(s, old(SnapshotOf(s))))
        && (!removingOrFinishing ==>
              sessionLifecycles == old(sessionLifecycles) && InvalidatedFrom(s, old(SnapshotOf(s))))
    {
      var r := LifecycleOf(Session, f);
      if r.Failure? {
        return Thrown(r.error);
      }
      if removingOrFinishing {
        FinishSession(f, r.value);
      } else {
        KeepSession(f, r.value);
      }
      outcome := Completed;
    }

    /** The fragment leaves for good: its session lifecycle is unregistered and destroyed, and the
        fragment is unmapped. */
    method FinishSession(f: Fragment, s: BaseLifecycle)
      requires Valid() && LifecycleOf(Session, f) == Success(s)
      modifies this`sessionLifecycles, this`fragmentToId, LifecycleFootprint(s), s.DispatcherGroups()
      ensures Valid() && fragmentToId == old(fragmentToId) - {f}
      ensures sessionLifecycles == old(sessionLifecycles) - {old(fragmentToId[f])}
      ensures instanceLifecycles == old(instanceLifecycles)
      ensures DestroyedFrom(s, old(SnapshotOf(s)))
    {
      ghost var b := SnapshotOf(s);
      RemoveSession(fragmentToId[f]);
      assert SnapshotOf(s) == b;
      DestroyUnregistered(s);
      UnmapFragment(f);
    }

    /** The fragment instance goes but its session stays: the session lifecycle's listeners are
        invalidated, and the fragment is unmapped. */
    method KeepSession(f: Fragment, s: BaseLifecycle)
      requires Valid() && LifecycleOf(Session, f) == Success(s)
      modifies this`fragmentToId, LifecycleFootprint(s)
      ensures Valid() && fragmentToId == old(fragmentToId) - {f}
      ensures sessionLifecycles == old(sessionLifecycles) && instanceLifecycles == old(instanceLifecycles)
      ensures InvalidatedFrom(s, old(SnapshotOf(s)))
    {
      InvalidateRegistered(s);
      UnmapFragment(f);
    }

    /** lifecycles.get(INSTANCE).remove(id) */
    method RemoveInstance(id: string)
      requires Valid()
      modifies this`instanceLifecycles
      ensures Valid() && instanceLifecycles == old(instanceLifecycles) - {id}
    {
      instanceLifecycles := instanceLifecycles - {id};
    }

    /** lifecycles.get(SESSION).remove(id): the lifecycle removed is registered nowhere else. */
    method RemoveSession(id: string)
      requires Valid() && id in sessionLifecycles
      modifies this`sessionLifecycles
      ensures Valid() && sessionLifecycles == old(sessionLifecycles) - {id}
      ensures old(sessionLifecycles[id]) !in Lifecycles() && Live(old(sessionLifecycles[id]))
      ensures instanceLifecycles == old(instanceLifecycles) && fragmentToId == old(fragmentToId)
    {
      sessionLifecycles := sessionLifecycles - {id};
    }

    /** fragmentToId.remove(f) */
    method UnmapFragment(f: Fragment)
      requires Valid()
      modifies this`fragmentToId
      ensures Valid() && fragmentToId == old(fragmentToId) - {f}
      ensures sessionLifecycles == old(sessionLifecycles) && instanceLifecycles == old(instanceLifecycles)
    {
      fragmentToId := fragmentToId - {f};
    }

    /** sessionLifecycle.destroy() on a lifecycle no longer in the registry. */
    method DestroyUnregistered(s: BaseLifecycle)
      requires Valid() && Live(s) && s !in Lifecycles()
      modifies LifecycleFootprint(s), s.DispatcherGroups()
      ensures Valid() && DestroyedFrom(s, old(SnapshotOf(s))) && Maps() == old(Maps())
    {
      ApartFromRegistered(s);
      s.Destroy();
    }

    /** A live lifecycle outside the registry shares no object with a registered one. */
    lemma ApartFromRegistered(s: BaseLifecycle)
      requires Valid() && Live(s) && s !in Lifecycles()
      ensures forall l :: l in Lifecycles() ==> LifecycleFootprint(l) !! LifecycleFootprint(s)
    {
      forall l | l in Lifecycles() ensures LifecycleFootprint(l) !! LifecycleFootprint(s) {
        LiveDisjoint(l, s);
      }
    }

    /** sessionLifecycle.invalidateEventListeners() on a registered lifecycle. */
    method InvalidateRegistered(s: BaseLifecycle)
      requires Valid() && s in Lifecycles()
      modifies s.dispatchers
      ensures Valid() && InvalidatedFrom(s, old(SnapshotOf(s)))
    {
      s.InvalidateEventListeners();
    }
  }

  /** A lifecycle's state, its dispatchers' observations and the groups they belong to, taken
      before destroy() or invalidateEventListeners() runs. */
  datatype Snapshot = Snapshot(
    registry: (seq<ActiveChangeListener>, seq<LifecycleDestroyListener>, map<string, LifecycleEventDispatcher>,
               set<LifecycleEventDispatcher>, bool, bool),
    notified: seq<Notification>,
    active: bool,
    destroyed: bool,
    obs: map<LifecycleEventDispatcher, Observation>,
    groups: set<EventReceivers>,
    members: map<EventReceivers, seq<Receiver>>,
    lists: map<LifecycleEventDispatcher, seq<ReceiverDestroyListener>>)

  /** The snapshot of s that destroy() and invalidateEventListeners() are specified against. */
  ghost function SnapshotOf(s: BaseLifecycle): Snapshot
    reads s, s.dispatchers, s.DispatcherGroups()
  {
    Snapshot(s.Registry(), s.notified, s.active, s.destroyed, map d | d in s.dispatchers :: d.ObsAt(false),
             s.DispatcherGroups(), Members(s.DispatcherGroups()), s.DestroyLists())
  }

  /** What destroy() did to a lifecycle that looked like b: destroyed, listeners and dispatchers
      kept, every destroy listener called, every dispatcher destroyed, and each group its
      dispatchers were in left by them. */
  ghost predicate DestroyedFrom(s: BaseLifecycle, b: Snapshot)
    reads s, s.dispatchers, b.groups
  {
    && s.Valid() && s.destroyed && s.active == b.active && s.Registry() == b.registry
    && s.notified == b.notified + DestroyNotifications(s.onDestroyListeners)
    && (forall d :: d in s.dispatchers ==> d in b.obs && d.ObsAt(false) == DestroyedObs(b.obs[d]))
    && AllReleased(b.groups, b.members, s.dispatchers, b.lists)
  }

  /** What invalidateEventListeners() did to a lifecycle that looked like b: still live and itself
      unchanged, and every dispatcher has lost its listener and kept everything else, its queue
      included. */
  ghost predicate InvalidatedFrom(s: BaseLifecycle, b: Snapshot)
    reads s, s.dispatchers
  {
    && Live(s) && s.Registry() == b.registry && s.notified == b.notified
    && s.active == b.active && s.destroyed == b.destroyed
    && forall d :: d in s.dispatchers ==> d in b.obs && d.ObsAt(false) == Unbound(b.obs[d])
  }

  /** A lifecycle's state and its dispatchers' observations at a given value of the active flag,
      taken before setActive runs. */
  datatype Switch = Switch(
    registry: (seq<ActiveChangeListener>, seq<LifecycleDestroyListener>, map<string, LifecycleEventDispatcher>,
               set<LifecycleEventDispatcher>, bool, bool),
    notified: seq<Notification>,
    active: bool,
    obs: map<LifecycleEventDispatcher, Observation>)

  ghost function SwitchOf(s: BaseLifecycle, v: bool): Switch
    reads s, s.dispatchers
  {
    Switch(s.Registry(), s.notified, s.active, map d | d in s.dispatchers :: d.ObsAt(v))
  }

  /** What setActive(v) did to a live lifecycle that looked like b: active == v, listeners and
      dispatchers kept; on a change of the flag every active-change listener was called with v in
      list order and every dispatcher drained what had become ready, otherwise nothing happened. */
  ghost predicate SwitchedFrom(s: BaseLifecycle, v: bool, b: Switch)
    reads s, s.dispatchers
  {
    && Live(s) && s.active == v && s.Registry() == b.registry
    && s.notified == (if b.active == v then b.notified else b.notified + ActiveNotifications(s.activeChangeListeners, v))
    && forall d :: d in s.dispatchers ==>
         d in b.obs && d.ObsAt(v) == if b.active == v then b.obs[d] else DrainObs(b.obs[d])
  }

  /** A lifecycle together with its dispatchers. */
  ghost function LifecycleFootprint(l: BaseLifecycle): set<object>
    reads l
  {
    var s: set<object> := {l};
    s + l.dispatchers
  }

  /** Two live lifecycles share no dispatcher: each dispatcher points back at its own lifecycle. */
  lemma LiveDisjoint(a: BaseLifecycle, b: BaseLifecycle)
    requires Live(a) && Live(b) && a != b
    ensures LifecycleFootprint(a) !! LifecycleFootprint(b)
  {
  }
}
