/**
 * Whole runs through the model, from fresh objects, each ending in the result the library's
 * documentation and the sample application describe.
 */
module Scenarios {
  import opened Wrappers
  import opened DispatchSpec
  import opened Lifecycle
  import opened FragmentRegistry
  import SessionRegistry
  import LegacyFramework
  import opened CachingCalculator

  /** A lifecycle just created is new and not restored, hence new or restored. */
  method FreshLifecycle() returns (isNew: bool, isRestored: bool, isNewOrRestored: bool)
    ensures isNew && !isRestored && isNewOrRestored
  {
    var l := new BaseLifecycle();
    isNew := l.IsNew();
    isRestored := l.IsRestored();
    isNewOrRestored := l.IsNewOrRestored();
  }

  /** A new, inactive lifecycle with one dispatcher, registered under tag with the given listener. */
  method RegisteredWhileInactive(tag: string, storeWhileInactive: bool, listener: ListenerId)
      returns (l: BaseLifecycle, d: LifecycleEventDispatcher)
    ensures fresh(l) && fresh(d) && l.Valid() && !l.active && !l.destroyed
    ensures l.dispatchers == {d} && l.eventDispatchers == map[tag := d] && d.lifecycle == l
    ensures d.View() == NewDispatcher(storeWhileInactive).(listener := Some(listener)) && d.delivered == []
  {
    l := new BaseLifecycle();
    d := l.RegisterListener(tag, storeWhileInactive, listener);
  }

  /** A storing dispatcher that receives events while its lifecycle is inactive hands them to its
      listener, in order, as soon as the lifecycle becomes active. */
  method BufferedUntilActive() returns (before: seq<Delivery>, after: seq<Delivery>)
    ensures before == [] && after == [Delivery(7, 1), Delivery(7, 2)]
  {
    var l, d := RegisteredWhileInactive("result", true, 7);
    d.PostEvent(1);
    d.PostEvent(2);
    before := d.delivered;
    assert d.pendingEvents == [1, 2];
    l.SetActive(true);
    after := d.delivered;
  }

  /** A dispatcher that does not store drops what is posted while its lifecycle is inactive. */
  method DroppedWhileInactive() returns (after: seq<Delivery>)
    ensures after == []
  {
    var l, d := RegisteredWhileInactive("tick", false, 7);
    d.PostEvent(1);
    assert d.pendingEvents == [];
    l.SetActive(true);
    after := d.delivered;
  }

  /** An event posted while the lifecycle is inactive survives the invalidation of its listener
      and reaches the listener registered next under the same tag. */
  method QueuedForNextListener() returns (after: seq<Delivery>)
    ensures after == [Delivery(8, 1)]
  {
    var l, d := QueuedAndUnbound();
    var d' := l.RegisterListener("result", true, 8);
    l.SetActive(true);
    after := d'.delivered;
  }

  /** A storing dispatcher that got event 1 while inactive, after its listener was invalidated. */
  method QueuedAndUnbound() returns (l: BaseLifecycle, d: LifecycleEventDispatcher)
    ensures fresh(l) && fresh(d) && l.Valid() && !l.active && !l.destroyed
    ensures l.dispatchers == {d} && l.eventDispatchers == map["result" := d] && d.lifecycle == l
    ensures d.View() == DispatcherState(None, true, [1], false) && d.delivered == []
  {
    l, d := RegisteredWhileInactive("result", true, 7);
    d.PostEvent(1);
    l.InvalidateEventListeners();
  }

  /** A configuration change: the fragment's state is saved, the old instance is destroyed without
      being removed, and the new instance is created from the saved state. It gets the same session
      lifecycle, which is neither new nor restored, and a new instance lifecycle. */
  method ConfigurationChange(processUniqueId: string)
      returns (sameSession: bool, isNew: bool, isRestored: bool, newInstance: bool)
    ensures sameSession && !isNew && !isRestored && newInstance
  {
    var registry, session, instance := RegistryWithFragment(processUniqueId, 1);
    var saved := registry.SaveInstanceState(1);
    var destroyed := registry.OnFragmentDestroy(1, false);
    var recreated := registry.OnFragmentCreate(2, saved);
    var session' := registry.LifecycleOf(Session, 2);
    var instance' := registry.LifecycleOf(Instance, 2);
    sameSession := session' == Success(session);
    isNew := session'.value.IsNew();
    isRestored := session'.value.IsRestored();
    newInstance := instance'.value != instance;
  }

  /** A new registry in which fragment f has just been created without saved state. */
  method RegistryWithFragment(processUniqueId: string, f: Fragment)
      returns (registry: FragmentLifecycles, session: BaseLifecycle, instance: BaseLifecycle)
    ensures fresh(registry) && fresh(session) && fresh(instance) && registry.Valid()
    ensures registry.LifecycleOf(Session, f) == Success(session)
    ensures registry.LifecycleOf(Instance, f) == Success(instance)
    ensures Pristine(session) && Pristine(instance)
  {
    registry := new FragmentLifecycles(processUniqueId);
    var created := registry.OnFragmentCreate(f, NoSavedState);
    session := registry.LifecycleOf(Session, f).value;
    instance := registry.LifecycleOf(Instance, f).value;
  }

  /** After the process is restarted the registry is empty: a fragment created from saved state
      gets a new session lifecycle under its old id, which reports itself restored and not new. */
  method ProcessRestart(processUniqueId: string, savedId: string)
      returns (outcome: Outcome, isNew: bool, isRestored: bool)
    ensures outcome == Completed && !isNew && isRestored
  {
    var registry := new FragmentLifecycles(processUniqueId);
    outcome := registry.OnFragmentCreate(1, Saved(Some(savedId)));
    var session := registry.LifecycleOf(Session, 1);
    isNew := session.value.IsNew();
    isRestored := session.value.IsRestored();
  }

  /** The util FragmentLifecycle as written: after a configuration change the new fragment was
      never mapped to its id, so resuming it throws IllegalStateException. */
  method UtilRecreatedResumeAsWritten(processUniqueId: string) returns (resumed: Outcome)
    ensures resumed == Thrown(IllegalStateException)
  {
    var registry := new SessionRegistry.FragmentSessionLifecycles(processUniqueId);
    var created := registry.OnFragmentCreate(1, NoSavedState);
    var saved := registry.SaveInstanceState(1);
    var destroyed := registry.OnFragmentDestroy(1);
    var recreated := registry.OnFragmentCreate(2, saved);
    resumed := registry.OnFragmentResume(2);
  }

  /** The same run with the saved-id branch mapping the fragment: the lifecycle kept across the
      change is found again and becomes active. */
  method UtilRecreatedResumeMapped(processUniqueId: string) returns (resumed: Outcome, active: bool)
    ensures resumed == Completed && active
  {
    var registry := new SessionRegistry.FragmentSessionLifecycles(processUniqueId);
    var created := registry.OnFragmentCreateMapped(1, NoSavedState);
    var saved := registry.SaveInstanceState(1);
    var destroyed := registry.OnFragmentDestroy(1);
    var recreated := registry.OnFragmentCreateMapped(2, saved);
    var session := registry.FragmentSessionLifecycle(2);
    resumed := registry.OnFragmentResume(2);
    active := session.value.IsActive();
  }

  /** The older dispatcher queues while its lifecycle is inactive and delivers when the lifecycle's
      active-change callback runs after it became active. */
  method LegacyBufferedUntilActive() returns (before: seq<Delivery>, after: seq<Delivery>)
    ensures before == [] && after == [Delivery(7, 1)]
  {
    var host := new LegacyFramework.HostLifecycle(false);
    var d := new LegacyFramework.LegacyEventDispatcher(host, true);
    d.SetListener(Some(7));
    d.PostEvent(1);
    before := d.delivered;
    host.active := true;
    d.DispatchPendingIfReady();
    after := d.delivered;
  }

  /** The first add of a pair is computed later; once it has run, the same add is answered at
      once from the cache and nothing more is scheduled. */
  method RepeatedAddIsCached() returns (firstPosted: seq<Post>, posted: seq<Post>, pending: seq<ScheduledAdd>)
    ensures firstPosted == [] && posted == [Post(1, 5), Post(2, 5)] && pending == []
  {
    var service := new CachingCalculatorService();
    service.Add(2, 3, 1);
    firstPosted := service.posted;
    service.RunScheduled();
    LookupAfterStore(map[], 2, 3, 5);
    service.Add(2, 3, 2);
    posted := service.posted;
    pending := service.scheduled;
  }

  /** A fragment that is removed leaves no lifecycle behind: its session lifecycle is destroyed,
      while its instance lifecycle is only dropped from the registry and never destroyed. */
  method RemovedFragment(processUniqueId: string)
      returns (destroyed: Outcome, sessionDestroyed: bool, instanceDestroyed: bool, registered: bool)
    ensures destroyed == Completed && sessionDestroyed && !instanceDestroyed && !registered
  {
    var registry, session, instance := RegistryWithFragment(processUniqueId, 1);
    destroyed := registry.OnFragmentDestroy(1, true);
    sessionDestroyed := session.IsDestroyed();
    instanceDestroyed := instance.IsDestroyed();
    registered := registry.LifecycleOf(Instance, 1).Success?;
  }

  /** Saved state without the id is refused. */
  method SavedStateWithoutId(processUniqueId: string) returns (created: Outcome, registered: bool)
    ensures created == Thrown(IllegalArgumentException) && !registered
  {
    var registry := new FragmentLifecycles(processUniqueId);
    created := registry.OnFragmentCreate(1, Saved(None));
    registered := registry.LifecycleOf(Session, 1).Success?;
  }
}
