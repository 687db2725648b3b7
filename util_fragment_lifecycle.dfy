/**
 * The registry of com.talk4date.android.lifecycle.util.FragmentLifecycle, the older variant with
 * only a session lifecycle per fragment: its static state (the id counter, fragment -> id and
 * id -> session lifecycle) as the fields of one object, and the global FragmentLifecycleListener
 * handlers as its methods. Session lifecycles are never destroyed or removed here; a fragment's
 * destruction only invalidates its lifecycle's listeners.
 */
module SessionRegistry {
  import opened Wrappers
  import opened JavaInt
  import opened FragmentIds
  import opened Lifecycle
  import opened FragmentRegistry

  class FragmentSessionLifecycles {
    /** processUniqueId: a random UUID string, fixed for the process. */
    const processUniqueId: string
    var lastId: int32
    /** How many ids newFragmentId has issued. */
    ghost var issued: nat
    var fragmentToId: map<Fragment, string>
    var idToSessionLifecycle: map<string, BaseLifecycle>

    ghost function Lifecycles(): set<BaseLifecycle>
      reads this
    {
      idToSessionLifecycle.Values
    }

    ghost function Dispatchers(): set<LifecycleEventDispatcher>
      reads this, Lifecycles()
    {
      set l, d | l in Lifecycles() && d in l.dispatchers :: d
    }

    /** The counter is lastId, and every registered lifecycle is live. */
    ghost predicate Valid()
      reads this, Lifecycles(), Dispatchers()
    {
      && lastId == Wrap32(issued)
      && (forall id :: id in idToSessionLifecycle ==> Live(idToSessionLifecycle[id]))
    }

    /** The registry's maps. */
    ghost function Maps(): (map<Fragment, string>, map<string, BaseLifecycle>)
      reads this
    {
      (fragmentToId, idToSessionLifecycle)
    }

    constructor (processUniqueId: string)
      ensures Valid() && this.processUniqueId == processUniqueId
      ensures lastId == 0 && issued == 0
      ensures fragmentToId == map[] && idToSessionLifecycle == map[]
    {
      this.processUniqueId := processUniqueId;
      lastId := 0;
      issued := 0;
      fragmentToId := map[];
      idToSessionLifecycle := map[];
    }

    /** newFragmentId: lastId++, then the prefix followed by the new counter value. */
    method NewFragmentId() returns (id: string)
      requires lastId == Wrap32(issued)
      modifies this`lastId, this`issued
      ensures issued == old(issued) + 1 && lastId == Wrap32(issued)
      ensures id == NthFragmentId(processUniqueId, issued)
    {
      Wrap32Succ(issued);
      lastId := Wrap32(lastId as int + 1);
      issued := issued + 1;
      id := FragmentId(processUniqueId, lastId);
    }

    /**
     * fragmentSessionLifecycle(fragment): the lifecycle under the fragment's id. An unregistered
     * fragment, and a registered one whose id has no lifecycle, throw IllegalStateException.
     */
    function FragmentSessionLifecycle(f: Fragment): (r: Result<BaseLifecycle, Exception>)
      reads this
      ensures r.Success? <==> f in fragmentToId && fragmentToId[f] in idToSessionLifecycle
      ensures r.Success? ==> r.value in Lifecycles() && r.value == idToSessionLifecycle[fragmentToId[f]]
      ensures r.Failure? ==> r.error == IllegalStateException
    {
      if f !in fragmentToId then Failure(IllegalStateException)
      else if fragmentToId[f] !in idToSessionLifecycle then Failure(IllegalStateException)
      else Success(idToSessionLifecycle[fragmentToId[f]])
    }

    /** The lifecycle a saved id refers to, if there is one. */
    ghost function SessionFor(saved: SavedState): set<BaseLifecycle>
      reads this
    {
      if saved.Saved? && saved.id.Some? && saved.id.value in idToSessionLifecycle
      then {idToSessionLifecycle[saved.id.value]} else {}
    }

    /**
     * onFragmentCreate. Without saved state: a fresh id, the fragment mapped to it, and a new
     * lifecycle under it. With saved state lacking the id: IllegalArgumentException and nothing
     * changes. With saved id x: the lifecycle under x is reused (restored := false) or, if there is
     * none, a new one is stored (restored := true); either way newLifecycle := false. The fragment
     * is NOT mapped to x, so every later lookup for it throws (see TakeOverMapped).
     */
    method OnFragmentCreate(f: Fragment, saved: SavedState) returns (outcome: Outcome)
      requires Valid()
      modifies this, SessionFor(saved)`restored, SessionFor(saved)`newLifecycle
      ensures Valid()
      ensures saved == Saved(None) ==>
        outcome == Thrown(IllegalArgumentException) && issued == old(issued) && Maps() == old(Maps())
      ensures saved == NoSavedState ==> outcome == Completed && CreatedNew(f)
      ensures saved.Saved? && saved.id.Some? ==>
        && outcome == Completed && issued == old(issued)
        && fragmentToId == old(fragmentToId)
        && TookOver(saved.id.value)
    {
      match saved {
        case NoSavedState =>
          CreateNew(f);
          outcome := Completed;
        case Saved(None) =>
          outcome := Thrown(IllegalArgumentException);
        case Saved(Some(x)) =>
          TakeOver(x);
          outcome := Completed;
      }
    }

    /** onFragmentCreate with the saved-id branch mapping the fragment, as the other
        FragmentLifecycle does: afterwards the fragment's lifecycle is the one under x. */
    method OnFragmentCreateMapped(f: Fragment, saved: SavedState) returns (outcome: Outcome)
      requires Valid()
      modifies this, SessionFor(saved)`restored, SessionFor(saved)`newLifecycle
      ensures Valid()
      ensures saved == Saved(None) ==>
        outcome == Thrown(IllegalArgumentException) && issued == old(issued) && Maps() == old(Maps())
      ensures saved == NoSavedState ==> outcome == Completed && CreatedNew(f)
      ensures saved.Saved? && saved.id.Some? ==>
        && outcome == Completed && issued == old(issued)
        && fragmentToId == old(fragmentToId)[f := saved.id.value]
        && TookOver(saved.id.value)
        && FragmentSessionLifecycle(f) == Success(idToSessionLifecycle[saved.id.value])
    {
      match saved {
        case NoSavedState =>
          CreateNew(f);
          outcome := Completed;
        case Saved(None) =>
          outcome := Thrown(IllegalArgumentException);
        case Saved(Some(x)) =>
          TakeOverMapped(f, x);
          outcome := Completed;
      }
    }

    /** What creating a new fragment leaves behind: the next id, the fragment mapped to it, and a
        new lifecycle under it. */
    twostate predicate CreatedNew(f: Fragment)
      reads this, Lifecycles(), Dispatchers()
    {
      var id := NthFragmentId(processUniqueId, issued);
      && issued == old(issued) + 1
      && fragmentToId == old(fragmentToId)[f := id]
      && id in idToSessionLifecycle
      && idToSessionLifecycle == old(idToSessionLifecycle)[id := idToSessionLifecycle[id]]
      && fresh(idToSessionLifecycle[id]) && Pristine(idToSessionLifecycle[id])
    }

    /** The branch of onFragmentCreate without saved state. */
    method CreateNew(f: Fragment)
      requires Valid()
      modifies this`lastId, this`issued, this`fragmentToId, this`idToSessionLifecycle
      ensures Valid() && CreatedNew(f)
    {
      var id := NewFragmentId();
      MapFragment(f, id);
      var s := new BaseLifecycle();
      PutLifecycle(id, s);
    }

    /** What taking over the lifecycle under saved id x leaves behind: it is kept with
        restored := false and everything else as before when there is one, else a new one is stored
        with restored := true; either way it is no longer new. */
    twostate predicate TookOver(x: string)
      reads this, Lifecycles(), Dispatchers()
    {
      && x in idToSessionLifecycle && !idToSessionLifecycle[x].newLifecycle
      && (x in old(idToSessionLifecycle) ==>
            && idToSessionLifecycle == old(idToSessionLifecycle)
            && !idToSessionLifecycle[x].restored
            && idToSessionLifecycle[x].Core() == old(idToSessionLifecycle[x].Core()))
      && (x !in old(idToSessionLifecycle) ==>
            && idToSessionLifecycle == old(idToSessionLifecycle)[x := idToSessionLifecycle[x]]
            && fresh(idToSessionLifecycle[x]) && Blank(idToSessionLifecycle[x])
            && idToSessionLifecycle[x].restored)
    }

    /** The branch of onFragmentCreate with saved id x, as written: the fragment mapping is not touched. */
    method TakeOver(x: string)
      requires Valid()
      modifies this`idToSessionLifecycle, SessionFor(Saved(Some(x)))`restored, SessionFor(Saved(Some(x)))`newLifecycle
      ensures Valid() && TookOver(x)
    {
      if x in idToSessionLifecycle {
        idToSessionLifecycle[x].MarkRecreated(false);
      } else {
        var s := new BaseLifecycle();
        s.MarkRecreated(true);
        PutLifecycle(x, s);
      }
    }

    /** The branch with saved id x as the other FragmentLifecycle writes it: the fragment is also
        mapped to x, so its lifecycle can be looked up afterwards. */
    method TakeOverMapped(f: Fragment, x: string)
      requires Valid()
      modifies this`fragmentToId, this`idToSessionLifecycle, SessionFor(Saved(Some(x)))`restored, SessionFor(Saved(Some(x)))`newLifecycle
      ensures Valid() && TookOver(x) && fragmentToId == old(fragmentToId)[f := x]
      ensures FragmentSessionLifecycle(f) == Success(idToSessionLifecycle[x])
    {
      MapFragment(f, x);
      TakeOver(x);
    }

    /** fragmentToId.put(f, id) */
    method MapFragment(f: Fragment, id: string)
      requires Valid()
      modifies this`fragmentToId
      ensures Valid() && fragmentToId == old(fragmentToId)[f := id]
    {
      fragmentToId := fragmentToId[f := id];
    }

    /** idToSessionLifecycle.put(id, s) for a lifecycle s created just before. */
    method PutLifecycle(id: string, s: BaseLifecycle)
      requires Valid() && Blank(s)
      modifies this`idToSessionLifecycle
      ensures Valid() && idToSessionLifecycle == old(idToSessionLifecycle)[id := s]
    {
      idToSessionLifecycle := idToSessionLifecycle[id := s];
    }

    /** The objects a handler acting on the fragment's lifecycle may change. */
    ghost function Footprint(f: Fragment): set<object>
      reads this, Lifecycles()
    {
      var r := FragmentSessionLifecycle(f);
      if r.Success? then LifecycleFootprint(r.value) else {}
    }

    /** onFragmentResume: the fragment's lifecycle becomes active. */
    method OnFragmentResume(f: Fragment) returns (outcome: Outcome)
      requires Valid()
      modifies Footprint(f)
      ensures Valid() && SetOne(old(FragmentSessionLifecycle(f)), true, outcome)
    {
      outcome := SetActiveOf(f, true);
    }

    /** onFragmentPause: the fragment's lifecycle becomes inactive. */
    method OnFragmentPause(f: Fragment) returns (outcome: Outcome)
      requires Valid()
      modifies Footprint(f)
      ensures Valid() && SetOne(old(FragmentSessionLifecycle(f)), false, outcome)
    {
      outcome := SetActiveOf(f, false);
    }

    /** fragmentSessionLifecycle(f).setActive(v) */
    method SetActiveOf(f: Fragment, v: bool) returns (outcome: Outcome)
      requires Valid()
      modifies Footprint(f)
      ensures Valid() && SetOne(old(FragmentSessionLifecycle(f)), v, outcome)
    {
      var r := FragmentSessionLifecycle(f);
      if r.Failure? {
        return Thrown(r.error);
      }
      SetActiveOn(r.value, v);
      outcome := Completed;
    }

    /** l.setActive(v) on a registered lifecycle; the others are not touched. */
    method SetActiveOn(l: BaseLifecycle, v: bool)
      requires Valid() && l in Lifecycles()
      modifies LifecycleFootprint(l)
      ensures Valid() && SwitchedFrom(l, v, old(SwitchOf(l, v)))
    {
      l.SetActive(v);
    }

    /**
     * onFragmentDestroy: the fragment's lifecycle has its listeners invalidated and stays registered;
     * the fragment is unmapped. A failed lookup throws IllegalStateException before either happens.
     */
    method OnFragmentDestroy(f: Fragment) returns (outcome: Outcome)
      requires Valid()
      modifies this`fragmentToId, Footprint(f)
      ensures Valid() && idToSessionLifecycle == old(idToSessionLifecycle)
      ensures old(FragmentSessionLifecycle(f)).Failure? ==>
        outcome == Thrown(IllegalStateException) && fragmentToId == old(fragmentToId)
      ensures old(FragmentSessionLifecycle(f)).Success? ==>
        && outcome == Completed && fragmentToId == old(fragmentToId) - {f}
        && var s := old(FragmentSessionLifecycle(f)).value; InvalidatedFrom(s, old(SnapshotOf(s)))
    {
      var r := FragmentSessionLifecycle(f);
      if r.Failure? {
        return Thrown(r.error);
      }
      ghost var b := SnapshotOf(r.value);
      InvalidateRegistered(r.value);
      assert InvalidatedFrom(r.value, b);
      UnmapFragment(f);
      outcome := Completed;
    }

    /** sessionLifecycle.invalidateEventListeners() on a registered lifecycle. */
    method InvalidateRegistered(s: BaseLifecycle)
      requires Valid() && s in Lifecycles()
      modifies s.dispatchers
      ensures Valid() && InvalidatedFrom(s, old(SnapshotOf(s)))
    {
      s.InvalidateEventListeners();
    }

    /** fragmentToId.remove(f) */
    method UnmapFragment(f: Fragment)
      requires Valid()
      modifies this`fragmentToId
      ensures Valid() && fragmentToId == old(fragmentToId) - {f}
    {
      fragmentToId := fragmentToId - {f};
    }

    /** onFragmentSaveInstanceState: the bundle written holds the fragment's id, null for an
        unregistered fragment. */
    function SaveInstanceState(f: Fragment): (saved: SavedState)
      reads this
      ensures saved != NoSavedState
      ensures saved.id.Some? <==> f in fragmentToId
      ensures saved.id.Some? ==> saved.id.value == fragmentToId[f]
    {
      Saved(if f in fragmentToId then Some(fragmentToId[f]) else None)
    }
  }

  /** The effect of a lookup followed by setActive(v): a failed lookup throws IllegalStateException;
      otherwise the lifecycle was switched to v. */
  twostate predicate SetOne(r: Result<BaseLifecycle, Exception>, v: bool, outcome: Outcome)
    reads if r.Success? then LifecycleFootprint(r.value) else {}
  {
    && outcome == (if r.Success? then Completed else Thrown(IllegalStateException))
    && (r.Success? ==> SwitchedFrom(r.value, v, old(SwitchOf(r.value, v))))
  }
}
