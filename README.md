# android-lifecycle, modelled in Dafny

The library gives Android screens (activities and fragments) a *lifecycle*: an object that is
active or inactive, can be destroyed, and hands out *event dispatchers* by tag. Each dispatcher
is bound to one listener. A post goes to the listener only while the lifecycle is active and a
listener is bound. Otherwise the event is queued, when the dispatcher stores while inactive, or
dropped. The queue is delivered, in order, once the lifecycle becomes active again or a new
listener is bound. When the screen goes away for good, destroying the lifecycle destroys its
dispatchers. A configuration change such as a rotation only invalidates their listeners, so an
event posted meanwhile reaches the listener that the re-created screen registers under the same
tag.

The project models:

- `DispatchSpec`: the dispatching rule as pure functions on a dispatcher state (listener,
  storeWhileInactive, queue, destroyed). The lemmas say what a single post, a series of posts, a
  drain or a rebind does.
- `Lifecycle`: classes `BaseLifecycle` (BaseLifecycle and its subclass ActivityBasedLifecycle
  in one class), `LifecycleEventDispatcher`, `UnmanagedEventReceiver` and `EventReceivers`.
  Each method is proved against the `DispatchSpec` functions. Calls into client code are
  recorded in log fields (`delivered`, `notified`, `received`, `destroyNotified`).
- `JavaInt` and `FragmentIds`: the fragment id, the process prefix followed by the decimal
  rendering of a Java `int` counter. Ids are distinct for the first 2^32 issues and repeat after
  that.
- `FragmentRegistry`: the static registry of `FragmentLifecycle.java`, with a session and an
  instance lifecycle per fragment id.
- `SessionRegistry`: the older registry of `util/FragmentLifecycle.java`, with session
  lifecycles only.
- `LegacyFramework`: the earlier dispatcher of the sample app's `framework` package.
- `CachingCalculator`: the add-result cache of the sample's `CachingCalculatorService`.
- `Scenarios`: whole runs from fresh objects, each closing with the outcome the library
  documents.
- `Wrappers` and `Seqs`: Option/Result, and the first-occurrence removal of
  `java.util.List.remove(Object)`.

Inputs that are not program state become parameters:
- the process-unique UUID prefix;
- whether a fragment is removing or its activity finishing;
- the id kept in a fragment's saved state;
- client listeners, identified by number.

Calls into code that is not part of the repository are left out.

## Model

| member | source | states |
|---|---|---|
| DispatchSpec.NewDispatcher | lifecycle/src/main/java/com/talk4date/android/lifecycle/LifecycleEventDispatcher.java:37-72 | a new dispatcher has no listener, an empty queue and is not destroyed, so it is never ready, whatever the lifecycle's flag |
| DispatchSpec.Ready | lifecycle/src/main/java/com/talk4date/android/lifecycle/LifecycleEventDispatcher.java:118-120 | readyForEvent: the lifecycle is active and a listener is bound; the member is the rule's definition and has no contract of its own |
| DispatchSpec.Drain | lifecycle/src/main/java/com/talk4date/android/lifecycle/LifecycleEventDispatcher.java:137-148 | dispatchPendingIfReady: only the queue changes; every queued event is either delivered or still queued, none lost or duplicated; when ready the queue is empty afterwards; nothing is delivered unless ready |
| DispatchSpec.WithListener | lifecycle/src/main/java/com/talk4date/android/lifecycle/LifecycleEventDispatcher.java:109-112 | setListener: the new listener is bound and nothing else but the queue changes; no queued event is lost; if the dispatcher is then ready its queue is empty |
| DispatchSpec.Post | lifecycle/src/main/java/com/talk4date/android/lifecycle/LifecycleEventDispatcher.java:169-183 | postEventSync's three branches; the member is the rule's definition, and DispatchSpec.PostFate states what it does |
| DispatchSpec.PostAll | lifecycle/src/main/java/com/talk4date/android/lifecycle/LifecycleEventDispatcher.java:169-183 | postEventSync called once per event in order; its properties are the lemmas StoredWhileNotReady, DroppedWhileNotReady, DeliveredWhileReady and IgnoredAfterDestroy |
| DispatchSpec.Destroyed | lifecycle/src/main/java/com/talk4date/android/lifecycle/LifecycleEventDispatcher.java:87-99 | onDestroy's effect on the dispatcher: destroyed, queue released, never ready again |
| DispatchSpec.Deliveries | lifecycle/src/main/java/com/talk4date/android/lifecycle/LifecycleEventDispatcher.java:142-146 | draining a queue calls the listener once per queued event, in queue order |
| DispatchSpec.PostFate | lifecycle/src/main/java/com/talk4date/android/lifecycle/LifecycleEventDispatcher.java:169-183 | a post makes at most one delivery, of the posted event to the current listener, and exactly when the dispatcher is live and ready; the queue grows, by that event at its tail, exactly when the dispatcher is live, not ready and storing; nothing but the queue changes |
| DispatchSpec.InvariantPreserved | lifecycle/src/main/java/com/talk4date/android/lifecycle/LifecycleEventDispatcher.java:109-183 | post, drain, rebind and destroy all keep the rule that only a storing dispatcher has queued events, and post and rebind never change storeWhileInactive |
| DispatchSpec.DrainIdempotent | lifecycle/src/main/java/com/talk4date/android/lifecycle/LifecycleEventDispatcher.java:137-148 | draining twice delivers nothing the second time |
| DispatchSpec.StoredWhileNotReady | lifecycle/src/main/java/com/talk4date/android/lifecycle/LifecycleEventDispatcher.java:175-178 | a series of posts to a live storing dispatcher that is not ready appends them all to the queue and delivers nothing |
| DispatchSpec.DroppedWhileNotReady | lifecycle/src/main/java/com/talk4date/android/lifecycle/LifecycleEventDispatcher.java:175-181 | a series of posts to a live non-storing dispatcher that is not ready leaves it unchanged |
| DispatchSpec.DeliveredWhileReady | lifecycle/src/main/java/com/talk4date/android/lifecycle/LifecycleEventDispatcher.java:172-174 | a series of posts to a ready dispatcher is delivered in order to its listener and leaves it unchanged |
| DispatchSpec.IgnoredAfterDestroy | lifecycle/src/main/java/com/talk4date/android/lifecycle/LifecycleEventDispatcher.java:170-171 | a series of posts to a destroyed dispatcher is ignored |
| DispatchSpec.BufferedThenDelivered | lifecycle/src/main/java/com/talk4date/android/lifecycle/LifecycleEventDispatcher.java:137-183 | events posted to a storing dispatcher while inactive are all delivered, in order and after the events already queued, at the next drain while active |
| DispatchSpec.DroppedForever | lifecycle/src/main/java/com/talk4date/android/lifecycle/LifecycleEventDispatcher.java:137-181 | events posted while inactive to a non-storing dispatcher are never delivered by a later drain |
| DispatchSpec.RebindDeliversToNewListener | lifecycle/src/main/java/com/talk4date/android/lifecycle/LifecycleEventDispatcher.java:109-148 | binding a listener when active delivers the whole queue to it and empties the queue; binding when inactive delivers nothing until the next activation, which delivers the queue to the new listener |
| DispatchSpec.ClearingListenerKeepsQueue | lifecycle/src/main/java/com/talk4date/android/lifecycle/LifecycleEventDispatcher.java:109-120 | setListener(null) only clears the listener; the queue is kept |
| Seqs.RemoveFirst | lifecycle/src/main/java/com/talk4date/android/lifecycle/BaseLifecycle.java:96 | List.remove(Object): the first occurrence goes; its properties are the Seqs lemmas below |
| Seqs.RemoveFirstAbsent | lifecycle/src/main/java/com/talk4date/android/lifecycle/BaseLifecycle.java:95-97 | removing an element that is not in the list leaves the list unchanged |
| Seqs.RemoveFirstAt | lifecycle/src/main/java/com/talk4date/android/lifecycle/BaseLifecycle.java:95-97 | removal cuts out exactly the first occurrence |
| Seqs.RemoveFirstMultiset | lifecycle/src/main/java/com/talk4date/android/lifecycle/BaseLifecycle.java:105-107 | removal takes away exactly one copy of a present element and nothing else |
| Seqs.RemoveFirstKeeps | lifecycle/src/main/java/com/talk4date/android/lifecycle/UnmanagedEventReceiver.java:61-63 | removal keeps every other element |
| Seqs.AppendThenRemove | lifecycle/src/main/java/com/talk4date/android/lifecycle/EventReceivers.java:13-21 | adding an absent element and removing it again restores the list |
| Seqs.RemoveFirstCountOther | lifecycle/src/main/java/com/talk4date/android/lifecycle/EventReceivers.java:18-21 | removal does not change how often another element occurs |
| Seqs.CountIsMultiplicity | lifecycle/src/main/java/com/talk4date/android/lifecycle/EventReceivers.java:28-32 | the count used for repeated receivers is the multiset multiplicity |
| Seqs.CountRemoveN | lifecycle/src/main/java/com/talk4date/android/lifecycle/EventReceivers.java:18-26 | unregistering a receiver n times lowers its count by n, down to zero, and leaves every other count as it was |
| Seqs.CountRemoveFirst | lifecycle/src/main/java/com/talk4date/android/lifecycle/EventReceivers.java:20 | one list.remove lowers the removed element's count by one, down to zero, and no other count |
| Seqs.CountAbsent | lifecycle/src/main/java/com/talk4date/android/lifecycle/EventReceivers.java:20 | an element not in the list occurs zero times |
| Lifecycle.BaseLifecycle.constructor | lifecycle/src/main/java/com/talk4date/android/lifecycle/BaseLifecycle.java:17-37 | a new lifecycle is inactive, not destroyed, new, not restored, and has no listeners or dispatchers |
| Lifecycle.BaseLifecycle.IsActive | lifecycle/src/main/java/com/talk4date/android/lifecycle/BaseLifecycle.java:110-112 | isActive reports the active flag; a getter with no contract of its own |
| Lifecycle.BaseLifecycle.IsDestroyed | lifecycle/src/main/java/com/talk4date/android/lifecycle/BaseLifecycle.java:115-117 | isDestroyed reports the destroyed flag; a getter with no contract of its own |
| Lifecycle.BaseLifecycle.IsRestored | lifecycle/src/main/java/com/talk4date/android/lifecycle/ActivityBasedLifecycle.java:23-25 | isRestored reports the restored flag; Scenarios.ProcessRestart shows it true after re-creation in an empty registry |
| Lifecycle.BaseLifecycle.IsNew | lifecycle/src/main/java/com/talk4date/android/lifecycle/ActivityBasedLifecycle.java:30-32 | isNew reports the newLifecycle flag; Scenarios.FreshLifecycle shows it true on a fresh lifecycle |
| Lifecycle.BaseLifecycle.IsNewOrRestored | lifecycle/src/main/java/com/talk4date/android/lifecycle/ActivityBasedLifecycle.java:38-40 | isNew() or isRestored(); a getter with no contract of its own |
| Lifecycle.BaseLifecycle.SetActive | lifecycle/src/main/java/com/talk4date/android/lifecycle/BaseLifecycle.java:42-49 | the flag takes the new value; only a change notifies the active-change listeners, in list order; every dispatcher then has drained its queue if ready |
| Lifecycle.BaseLifecycle.NotifyActiveChangeListeners | lifecycle/src/main/java/com/talk4date/android/lifecycle/BaseLifecycle.java:45-47 | the loop notifies each active-change listener in order and drains every dispatcher |
| Lifecycle.BaseLifecycle.CallActiveChange | lifecycle/src/main/java/com/talk4date/android/lifecycle/BaseLifecycle.java:46 | one listener.onActiveChange(active): a client callback is logged, a dispatcher drains |
| Lifecycle.BaseLifecycle.InvalidateEventListeners | lifecycle/src/main/java/com/talk4date/android/lifecycle/BaseLifecycle.java:58-62 | every dispatcher loses its listener and keeps its queue |
| Lifecycle.BaseLifecycle.Destroy | lifecycle/src/main/java/com/talk4date/android/lifecycle/BaseLifecycle.java:68-74 | the lifecycle is destroyed, keeps its active flag and listener lists, notifies its destroy listeners in list order, every dispatcher ends destroyed with its client destroy callbacks called, and every EventReceivers group a dispatcher was registered in has lost that dispatcher as often as it was registered, all other members kept |
| Lifecycle.BaseLifecycle.Dismantle | lifecycle/src/main/java/com/talk4date/android/lifecycle/BaseLifecycle.java:70-73 | the part of destroy() after the flag is set, with the same effect on notifications, dispatchers and groups |
| Lifecycle.BaseLifecycle.NotifyDestroyListeners | lifecycle/src/main/java/com/talk4date/android/lifecycle/BaseLifecycle.java:71-73 | the loop notifies each destroy listener in order, destroys every dispatcher, and leaves each EventReceivers group without the destroyed dispatchers, as many copies removed as each was registered |
| Lifecycle.BaseLifecycle.CallOnDestroy | lifecycle/src/main/java/com/talk4date/android/lifecycle/BaseLifecycle.java:72 | one listener.onDestroy(): a client callback is logged, or a dispatcher is destroyed and every group it was registered in loses that many copies of it |
| Lifecycle.ReleasedStep | lifecycle/src/main/java/com/talk4date/android/lifecycle/LifecycleEventDispatcher.java:90-92 | once one more dispatcher has left a group as often as it was registered in it, the group holds every other receiver as often as before and each released dispatcher that many times fewer |
| Lifecycle.BaseLifecycle.RegisterListener | lifecycle/src/main/java/com/talk4date/android/lifecycle/BaseLifecycle.java:78-87 | a known tag returns its dispatcher with the new listener bound, the queue drained if active and storeWhileInactive unchanged; an unknown tag gets a fresh dispatcher with this storeWhileInactive, subscribed to the lifecycle |
| Lifecycle.BaseLifecycle.AddActiveChangeListener | lifecycle/src/main/java/com/talk4date/android/lifecycle/BaseLifecycle.java:90-92 | the listener is appended |
| Lifecycle.BaseLifecycle.RemoveActiveChangeListener | lifecycle/src/main/java/com/talk4date/android/lifecycle/BaseLifecycle.java:95-97 | the first occurrence of the listener is removed |
| Lifecycle.BaseLifecycle.AddOnDestroyListener | lifecycle/src/main/java/com/talk4date/android/lifecycle/BaseLifecycle.java:100-102 | the listener is appended |
| Lifecycle.BaseLifecycle.RemoveOnDestroyListener | lifecycle/src/main/java/com/talk4date/android/lifecycle/BaseLifecycle.java:105-107 | the first occurrence of the listener is removed |
| Lifecycle.BaseLifecycle.MarkRecreated | lifecycle/src/main/java/com/talk4date/android/lifecycle/FragmentLifecycle.java:159-170 | the restored flag takes the given value and the lifecycle is no longer new; the listener lists, dispatcher registry, log and active and destroyed flags are unchanged, and nothing else may change |
| Lifecycle.LifecycleEventDispatcher.constructor | lifecycle/src/main/java/com/talk4date/android/lifecycle/LifecycleEventDispatcher.java:66-72 | the dispatcher starts without listener, queue or destroy listeners, and is appended to its lifecycle's active-change and destroy listeners |
| Lifecycle.LifecycleEventDispatcher.OnActiveChange | lifecycle/src/main/java/com/talk4date/android/lifecycle/LifecycleEventDispatcher.java:78-80 | the dispatcher drains as the dispatching rule prescribes |
| Lifecycle.LifecycleEventDispatcher.OnDestroy | lifecycle/src/main/java/com/talk4date/android/lifecycle/LifecycleEventDispatcher.java:87-100 | the dispatcher is destroyed and lets go of lifecycle, listener, queue and destroy listeners; its client destroy callbacks are called in order, and each receiver group it belonged to drops one entry for it |
| Lifecycle.LifecycleEventDispatcher.NotifyOnDestroyListeners | lifecycle/src/main/java/com/talk4date/android/lifecycle/LifecycleEventDispatcher.java:90-92 | the loop calls every destroy listener in order, groups included |
| Lifecycle.LifecycleEventDispatcher.NotifyStep | lifecycle/src/main/java/com/talk4date/android/lifecycle/LifecycleEventDispatcher.java:90-92 | one turn of that loop keeps its invariant: callbacks so far logged, each group has lost one entry per group entry passed |
| Lifecycle.LifecycleEventDispatcher.CallOnDestroy | lifecycle/src/main/java/com/talk4date/android/lifecycle/LifecycleEventDispatcher.java:91 | one listener.onDestroy(this): a client callback is logged, or a group unregisters the dispatcher |
| Lifecycle.LifecycleEventDispatcher.SetListener | lifecycle/src/main/java/com/talk4date/android/lifecycle/LifecycleEventDispatcher.java:109-112 | the new state and deliveries are those of the dispatching rule's rebind |
| Lifecycle.LifecycleEventDispatcher.DispatchEvent | lifecycle/src/main/java/com/talk4date/android/lifecycle/LifecycleEventDispatcher.java:126-131 | exactly one delivery of the event to the bound listener |
| Lifecycle.LifecycleEventDispatcher.DispatchPendingIfReady | lifecycle/src/main/java/com/talk4date/android/lifecycle/LifecycleEventDispatcher.java:137-148 | the new state and deliveries are those of the dispatching rule's drain |
| Lifecycle.LifecycleEventDispatcher.DispatchAllPending | lifecycle/src/main/java/com/talk4date/android/lifecycle/LifecycleEventDispatcher.java:142-146 | the loop empties the queue and delivers it in order |
| Lifecycle.LifecycleEventDispatcher.ReadyForEvent | lifecycle/src/main/java/com/talk4date/android/lifecycle/LifecycleEventDispatcher.java:118-120 | readyForEvent as the rule's Ready on the lifecycle's flag and the dispatcher's state; defined directly, no contract of its own |
| Lifecycle.LifecycleEventDispatcher.PostEventSync | lifecycle/src/main/java/com/talk4date/android/lifecycle/LifecycleEventDispatcher.java:169-183 | the new state and deliveries are those of the dispatching rule's post |
| Lifecycle.LifecycleEventDispatcher.PostEvent | lifecycle/src/main/java/com/talk4date/android/lifecycle/LifecycleEventDispatcher.java:151-163 | on the main thread, exactly postEventSync |
| Lifecycle.LifecycleEventDispatcher.AddOnDestroyListener | lifecycle/src/main/java/com/talk4date/android/lifecycle/LifecycleEventDispatcher.java:191-193 | the listener is appended |
| Lifecycle.LifecycleEventDispatcher.RemoveOnDestroyListener | lifecycle/src/main/java/com/talk4date/android/lifecycle/LifecycleEventDispatcher.java:196-198 | the first occurrence of the listener is removed |
| Lifecycle.LifecycleEventDispatcher.IsDestroyed | lifecycle/src/main/java/com/talk4date/android/lifecycle/LifecycleEventDispatcher.java:186-188 | isDestroyed reports the destroyed flag; a getter with no contract of its own |
| Lifecycle.UnmanagedEventReceiver.constructor | lifecycle/src/main/java/com/talk4date/android/lifecycle/UnmanagedEventReceiver.java:19 | a new receiver is live and has no listeners |
| Lifecycle.UnmanagedEventReceiver.PostEvent | lifecycle/src/main/java/com/talk4date/android/lifecycle/UnmanagedEventReceiver.java:22-37 | a live receiver handles the event once; a destroyed one ignores it |
| Lifecycle.UnmanagedEventReceiver.Destroy | lifecycle/src/main/java/com/talk4date/android/lifecycle/UnmanagedEventReceiver.java:44-47 | the receiver is destroyed, its client destroy callbacks are called in order, and each group it belonged to drops one entry for it |
| Lifecycle.UnmanagedEventReceiver.NotifyOnDestroyListeners | lifecycle/src/main/java/com/talk4date/android/lifecycle/UnmanagedEventReceiver.java:49-53 | the loop calls every listener in order; group entries unregister themselves |
| Lifecycle.UnmanagedEventReceiver.NotifyStep | lifecycle/src/main/java/com/talk4date/android/lifecycle/UnmanagedEventReceiver.java:50-52 | one turn of that loop keeps its invariant |
| Lifecycle.UnmanagedEventReceiver.CallOnDestroy | lifecycle/src/main/java/com/talk4date/android/lifecycle/UnmanagedEventReceiver.java:51 | one listener.onDestroy(this) |
| Lifecycle.UnmanagedEventReceiver.AddOnDestroyListener | lifecycle/src/main/java/com/talk4date/android/lifecycle/UnmanagedEventReceiver.java:56-58 | the listener is appended |
| Lifecycle.UnmanagedEventReceiver.RemoveOnDestroyListener | lifecycle/src/main/java/com/talk4date/android/lifecycle/UnmanagedEventReceiver.java:61-63 | the first occurrence of the listener is removed |
| Lifecycle.UnmanagedEventReceiver.IsDestroyed | lifecycle/src/main/java/com/talk4date/android/lifecycle/UnmanagedEventReceiver.java:40-42 | isDestroyed reports the destroyed flag; a getter with no contract of its own |
| Lifecycle.EventReceivers.constructor | lifecycle/src/main/java/com/talk4date/android/lifecycle/EventReceivers.java:11 | a new group is empty |
| Lifecycle.EventReceivers.RegisterEventReceiver | lifecycle/src/main/java/com/talk4date/android/lifecycle/EventReceivers.java:13-16 | the receiver is appended and the group is appended to its destroy listeners; the receiver is otherwise unchanged |
| Lifecycle.EventReceivers.UnregisterEventReceiver | lifecycle/src/main/java/com/talk4date/android/lifecycle/EventReceivers.java:18-21 | the first occurrences of the receiver in the group and of the group in its listeners are removed |
| Lifecycle.EventReceivers.OnDestroy | lifecycle/src/main/java/com/talk4date/android/lifecycle/EventReceivers.java:24-26 | the same as unregistering the receiver |
| Lifecycle.EventReceivers.PostEvent | lifecycle/src/main/java/com/talk4date/android/lifecycle/EventReceivers.java:28-32 | every receiver in the group gets the event once for each time it is registered, by the dispatching rule for dispatchers and directly for unmanaged receivers |
| Lifecycle.EventReceivers.PostStep | lifecycle/src/main/java/com/talk4date/android/lifecycle/EventReceivers.java:29-31 | one turn of that loop keeps its invariant |
| Lifecycle.PostTo | lifecycle/src/main/java/com/talk4date/android/lifecycle/EventReceivers.java:30 | one receiver.postEvent(event) on either kind of receiver |
| Lifecycle.DestroyedObsIdempotent | lifecycle/src/main/java/com/talk4date/android/lifecycle/LifecycleEventDispatcher.java:87-100 | destroying a destroyed dispatcher again changes nothing |
| Lifecycle.PostNDispatched | lifecycle/src/main/java/com/talk4date/android/lifecycle/EventReceivers.java:28-32 | posting the same event n times to a dispatcher is the dispatching rule applied to n copies |
| Lifecycle.PostNUnmanaged | lifecycle/src/main/java/com/talk4date/android/lifecycle/EventReceivers.java:28-32 | posting the same event n times to a live unmanaged receiver handles it n times |
| Lifecycle.NonGroups | lifecycle/src/main/java/com/talk4date/android/lifecycle/UnmanagedEventReceiver.java:49-53 | what is left of a listener list after its groups removed themselves holds no group |
| JavaInt.Wrap32 | lifecycle/src/main/java/com/talk4date/android/lifecycle/FragmentLifecycle.java:38-44 | the Java int value of an integer: congruent modulo 2^32, and exact inside the int range |
| JavaInt.Wrap32Periodic | lifecycle/src/main/java/com/talk4date/android/lifecycle/FragmentLifecycle.java:44 | wrapping has period 2^32 |
| JavaInt.Wrap32Succ | lifecycle/src/main/java/com/talk4date/android/lifecycle/FragmentLifecycle.java:44 | incrementing the wrapped counter is wrapping the incremented count |
| JavaInt.Wrap32Distinct | lifecycle/src/main/java/com/talk4date/android/lifecycle/FragmentLifecycle.java:43-46 | counts 1 to 2^32 give pairwise different int values |
| FragmentIds.Digits | lifecycle/src/main/java/com/talk4date/android/lifecycle/FragmentLifecycle.java:45 | the decimal rendering of a natural is a non-empty string of digits without a leading zero |
| FragmentIds.DecimalString | lifecycle/src/main/java/com/talk4date/android/lifecycle/FragmentLifecycle.java:45 | Java's rendering of an int: a minus sign exactly for negatives, then digits |
| FragmentIds.DecimalRoundTrip | lifecycle/src/main/java/com/talk4date/android/lifecycle/FragmentLifecycle.java:45 | parsing the rendering gives back the number |
| FragmentIds.DecimalStringInjective | lifecycle/src/main/java/com/talk4date/android/lifecycle/FragmentLifecycle.java:45 | different numbers render differently |
| FragmentIds.FragmentId | lifecycle/src/main/java/com/talk4date/android/lifecycle/FragmentLifecycle.java:43-46 | an id is the process prefix followed by the counter's rendering |
| FragmentIds.FragmentIdInjective | lifecycle/src/main/java/com/talk4date/android/lifecycle/FragmentLifecycle.java:43-46 | under one prefix, different counters give different ids |
| FragmentIds.IssuedIdsDistinct | lifecycle/src/main/java/com/talk4date/android/lifecycle/FragmentLifecycle.java:43-46 | the first 2^32 ids a process issues are pairwise different |
| FragmentIds.IssuedIdsRepeatAfterWrap | lifecycle/src/main/java/com/talk4date/android/lifecycle/FragmentLifecycle.java:43-46 | the id issued after 2^32 more issues is the same id again |
| FragmentRegistry.FragmentLifecycles.constructor | lifecycle/src/main/java/com/talk4date/android/lifecycle/FragmentLifecycle.java:33-58 | the registry starts with counter 0 and empty maps |
| FragmentRegistry.FragmentLifecycles.NewFragmentId | lifecycle/src/main/java/com/talk4date/android/lifecycle/FragmentLifecycle.java:43-46 | the counter is incremented with int wrap-around and the id is the next issued id |
| FragmentRegistry.FragmentLifecycles.LifecycleOf | lifecycle/src/main/java/com/talk4date/android/lifecycle/FragmentLifecycle.java:101-114 | succeeds exactly when the fragment is mapped and its id has a lifecycle of that type, and returns that lifecycle; otherwise IllegalStateException |
| FragmentRegistry.FragmentLifecycles.OnFragmentCreate | lifecycle/src/main/java/com/talk4date/android/lifecycle/FragmentLifecycle.java:134-172 | without saved state, a new id with new session and instance lifecycles; saved state without the id throws IllegalArgumentException and changes nothing; with a saved id, see CreateWithId: only the restore flags of an existing session lifecycle may change |
| FragmentRegistry.FragmentLifecycles.CreateNew | lifecycle/src/main/java/com/talk4date/android/lifecycle/FragmentLifecycle.java:139-144 | the next id is issued, the fragment is mapped to it, and new session and instance lifecycles are stored under it |
| FragmentRegistry.FragmentLifecycles.CreateWithId | lifecycle/src/main/java/com/talk4date/android/lifecycle/FragmentLifecycle.java:151-170 | the fragment is mapped to the saved id with a new instance lifecycle; an existing session lifecycle is kept with restored false; it keeps its listener lists, dispatcher registry, log and active and destroyed flags, and only its restore flags change; a missing one is created with restored true; either way it is no longer new |
| FragmentRegistry.FragmentLifecycles.MapWithInstance | lifecycle/src/main/java/com/talk4date/android/lifecycle/FragmentLifecycle.java:151-154 | the fragment is mapped to the saved id and a new, pristine instance lifecycle is stored under it; the session lifecycles are untouched |
| FragmentRegistry.FragmentLifecycles.TakeOverSession | lifecycle/src/main/java/com/talk4date/android/lifecycle/FragmentLifecycle.java:157-170 | the session-lifecycle part of that branch: an existing session lifecycle is kept with restored false; it keeps its listener lists, dispatcher registry, log and active and destroyed flags, and only its restore flags change; a missing one is created with restored true; either way it is no longer new |
| FragmentRegistry.FragmentLifecycles.MapFragment | lifecycle/src/main/java/com/talk4date/android/lifecycle/FragmentLifecycle.java:141-151 | the fragment is mapped to the id |
| FragmentRegistry.FragmentLifecycles.PutInstance | lifecycle/src/main/java/com/talk4date/android/lifecycle/FragmentLifecycle.java:144-154 | a fresh instance lifecycle is stored under the id |
| FragmentRegistry.FragmentLifecycles.PutSession | lifecycle/src/main/java/com/talk4date/android/lifecycle/FragmentLifecycle.java:143-167 | the session lifecycle is stored under the id |
| FragmentRegistry.FragmentLifecycles.SaveInstanceState | lifecycle/src/main/java/com/talk4date/android/lifecycle/FragmentLifecycle.java:208-210 | the saved state holds the fragment's id exactly when it is mapped |
| FragmentRegistry.FragmentLifecycles.SetActiveOn | lifecycle/src/main/java/com/talk4date/android/lifecycle/FragmentLifecycle.java:176-177 | setActive on one registered lifecycle: active becomes v with listener lists and dispatchers kept; on a change of the flag every active-change listener is called with v in order and every dispatcher drains what became ready, otherwise nothing happens |
| FragmentRegistry.FragmentLifecycles.OnFragmentResume | lifecycle/src/main/java/com/talk4date/android/lifecycle/FragmentLifecycle.java:175-178 | the session lifecycle and then the instance lifecycle are switched to active, with setActive's notifications and drains; a missing session lifecycle throws IllegalStateException and leaves the instance lifecycle as it was, a missing instance lifecycle throws after the session one was switched |
| FragmentRegistry.FragmentLifecycles.OnFragmentPause | lifecycle/src/main/java/com/talk4date/android/lifecycle/FragmentLifecycle.java:181-184 | the same, switching to inactive |
| FragmentRegistry.FragmentLifecycles.SetBothActive | lifecycle/src/main/java/com/talk4date/android/lifecycle/FragmentLifecycle.java:175-184 | the shared body of resume and pause, with the same contract |
| FragmentRegistry.FragmentLifecycles.SetInstanceActive | lifecycle/src/main/java/com/talk4date/android/lifecycle/FragmentLifecycle.java:176-177 | the instance half of resume and pause: the instance lifecycle is switched to v, or IllegalStateException when it is missing; the session lifecycle is untouched |
| FragmentRegistry.FragmentLifecycles.OnFragmentDestroy | lifecycle/src/main/java/com/talk4date/android/lifecycle/FragmentLifecycle.java:187-205 | the instance lifecycle is dropped; an unmapped fragment then throws IllegalStateException; otherwise the mapping is dropped, and the session lifecycle is removed and destroyed when the fragment is removing or finishing, else it only has its listeners invalidated |
| FragmentRegistry.FragmentLifecycles.ReleaseSession | lifecycle/src/main/java/com/talk4date/android/lifecycle/FragmentLifecycle.java:194-204 | the part of onFragmentDestroy after the instance lifecycle is dropped |
| FragmentRegistry.FragmentLifecycles.FinishSession | lifecycle/src/main/java/com/talk4date/android/lifecycle/FragmentLifecycle.java:196-204 | the session lifecycle is removed from the map and destroyed, its dispatchers leaving their groups, and the fragment unmapped |
| FragmentRegistry.FragmentLifecycles.KeepSession | lifecycle/src/main/java/com/talk4date/android/lifecycle/FragmentLifecycle.java:199-204 | the session lifecycle stays registered with its listeners invalidated, and the fragment is unmapped |
| FragmentRegistry.FragmentLifecycles.RemoveInstance | lifecycle/src/main/java/com/talk4date/android/lifecycle/FragmentLifecycle.java:191 | the instance lifecycle under the id is dropped |
| FragmentRegistry.FragmentLifecycles.RemoveSession | lifecycle/src/main/java/com/talk4date/android/lifecycle/FragmentLifecycle.java:197 | the session lifecycle under the id is dropped, still live |
| FragmentRegistry.FragmentLifecycles.UnmapFragment | lifecycle/src/main/java/com/talk4date/android/lifecycle/FragmentLifecycle.java:204 | the fragment's mapping is dropped |
| FragmentRegistry.FragmentLifecycles.DestroyUnregistered | lifecycle/src/main/java/com/talk4date/android/lifecycle/FragmentLifecycle.java:198 | destroy() on the lifecycle just removed, with all of destroy()'s effects, groups included; the registry is unchanged |
| FragmentRegistry.FragmentLifecycles.ApartFromRegistered | lifecycle/src/main/java/com/talk4date/android/lifecycle/FragmentLifecycle.java:196-198 | a live lifecycle just removed from the registry shares no object with any registered lifecycle |
| FragmentRegistry.LiveDisjoint | lifecycle/src/main/java/com/talk4date/android/lifecycle/LifecycleEventDispatcher.java:66-72 | two different live lifecycles share no dispatcher, since each dispatcher is created for one lifecycle |
| FragmentRegistry.FragmentLifecycles.InvalidateRegistered | lifecycle/src/main/java/com/talk4date/android/lifecycle/FragmentLifecycle.java:200 | invalidateEventListeners() on the registered session lifecycle |
| SessionRegistry.FragmentSessionLifecycles.constructor | lifecycle/src/main/java/com/talk4date/android/lifecycle/util/FragmentLifecycle.java:32-58 | the registry starts with counter 0 and empty maps |
| SessionRegistry.FragmentSessionLifecycles.NewFragmentId | lifecycle/src/main/java/com/talk4date/android/lifecycle/util/FragmentLifecycle.java:42-45 | the counter is incremented with int wrap-around and the id is the next issued id |
| SessionRegistry.FragmentSessionLifecycles.FragmentSessionLifecycle | lifecycle/src/main/java/com/talk4date/android/lifecycle/util/FragmentLifecycle.java:61-73 | succeeds exactly when the fragment is mapped and its id has a lifecycle, and returns it; otherwise IllegalStateException |
| SessionRegistry.FragmentSessionLifecycles.OnFragmentCreate | lifecycle/src/main/java/com/talk4date/android/lifecycle/util/FragmentLifecycle.java:86-119 | as written: without saved state, a new id and lifecycle; a missing id throws IllegalArgumentException; a saved id takes over or creates the session lifecycle, as TakeOver states, but leaves the fragment unmapped |
| SessionRegistry.FragmentSessionLifecycles.OnFragmentCreateMapped | lifecycle/src/main/java/com/talk4date/android/lifecycle/util/FragmentLifecycle.java:86-119 | corrected: the saved-id branch also maps the fragment to the id, so the fragment's session lifecycle is then found; an existing session lifecycle changes only in its restore flags, as TakeOverMapped states |
| SessionRegistry.FragmentSessionLifecycles.CreateNew | lifecycle/src/main/java/com/talk4date/android/lifecycle/util/FragmentLifecycle.java:88-91 | the next id is issued, the fragment is mapped to it, and a new lifecycle is stored under it |
| SessionRegistry.FragmentSessionLifecycles.TakeOver | lifecycle/src/main/java/com/talk4date/android/lifecycle/util/FragmentLifecycle.java:99-112 | an existing lifecycle is kept with restored false; it keeps its listener lists, dispatcher registry, log and active and destroyed flags, and only its restore flags change; a missing one created with restored true; either way no longer new; the fragment map is unchanged |
| SessionRegistry.FragmentSessionLifecycles.TakeOverMapped | lifecycle/src/main/java/com/talk4date/android/lifecycle/util/FragmentLifecycle.java:99-112 | the same, with the fragment mapped to the id |
| SessionRegistry.FragmentSessionLifecycles.MapFragment | lifecycle/src/main/java/com/talk4date/android/lifecycle/util/FragmentLifecycle.java:90 | the fragment is mapped to the id |
| SessionRegistry.FragmentSessionLifecycles.PutLifecycle | lifecycle/src/main/java/com/talk4date/android/lifecycle/util/FragmentLifecycle.java:91-109 | the lifecycle is stored under the id |
| SessionRegistry.FragmentSessionLifecycles.OnFragmentResume | lifecycle/src/main/java/com/talk4date/android/lifecycle/util/FragmentLifecycle.java:122-124 | the session lifecycle is switched to active, with setActive's notifications and drains, or IllegalStateException when it is not found |
| SessionRegistry.FragmentSessionLifecycles.OnFragmentPause | lifecycle/src/main/java/com/talk4date/android/lifecycle/util/FragmentLifecycle.java:127-129 | the session lifecycle is switched to inactive in the same way, or IllegalStateException |
| SessionRegistry.FragmentSessionLifecycles.SetActiveOf | lifecycle/src/main/java/com/talk4date/android/lifecycle/util/FragmentLifecycle.java:122-129 | the shared body of resume and pause |
| SessionRegistry.FragmentSessionLifecycles.SetActiveOn | lifecycle/src/main/java/com/talk4date/android/lifecycle/util/FragmentLifecycle.java:123-128 | setActive on the registered lifecycle: active becomes v with listener lists and dispatchers kept; on a change of the flag every active-change listener is called with v in order and every dispatcher drains what became ready |
| SessionRegistry.FragmentSessionLifecycles.OnFragmentDestroy | lifecycle/src/main/java/com/talk4date/android/lifecycle/util/FragmentLifecycle.java:132-135 | the lifecycle keeps its registration and has its listeners invalidated, and the fragment is unmapped; IllegalStateException when it is not found |
| SessionRegistry.FragmentSessionLifecycles.InvalidateRegistered | lifecycle/src/main/java/com/talk4date/android/lifecycle/util/FragmentLifecycle.java:133 | invalidateEventListeners() on the registered lifecycle |
| SessionRegistry.FragmentSessionLifecycles.UnmapFragment | lifecycle/src/main/java/com/talk4date/android/lifecycle/util/FragmentLifecycle.java:134 | the fragment's mapping is dropped |
| SessionRegistry.FragmentSessionLifecycles.SaveInstanceState | lifecycle/src/main/java/com/talk4date/android/lifecycle/util/FragmentLifecycle.java:138-140 | the saved state holds the fragment's id exactly when it is mapped |
| LegacyFramework.HostLifecycle.constructor | app/src/main/java/android/example/com/uicommunication/framework/Lifecycle.java:1-31 | a host lifecycle with the given active flag and no active-change listeners |
| LegacyFramework.HostLifecycle.IsActive | app/src/main/java/android/example/com/uicommunication/framework/Lifecycle.java:11 | isActive reports the stand-in lifecycle's flag; a getter with no contract of its own |
| LegacyFramework.LegacyEventDispatcher.constructor | app/src/main/java/android/example/com/uicommunication/framework/LifecycleEventDispatcher.java:51-61 | a dispatcher without listener or queue, appended to the lifecycle's active-change listeners |
| LegacyFramework.LegacyEventDispatcher.SetListener | app/src/main/java/android/example/com/uicommunication/framework/LifecycleEventDispatcher.java:70-73 | the dispatching rule's rebind |
| LegacyFramework.LegacyEventDispatcher.DispatchEvent | app/src/main/java/android/example/com/uicommunication/framework/LifecycleEventDispatcher.java:87-92 | exactly one delivery to the bound listener |
| LegacyFramework.LegacyEventDispatcher.DispatchPendingIfReady | app/src/main/java/android/example/com/uicommunication/framework/LifecycleEventDispatcher.java:97-108 | the dispatching rule's drain |
| LegacyFramework.LegacyEventDispatcher.DispatchAllPending | app/src/main/java/android/example/com/uicommunication/framework/LifecycleEventDispatcher.java:102-106 | the loop empties the queue and delivers it in order |
| LegacyFramework.LegacyEventDispatcher.ReadyForEvent | app/src/main/java/android/example/com/uicommunication/framework/LifecycleEventDispatcher.java:79-81 | readyForEvent as the rule's Ready on the host's flag; defined directly, no contract of its own |
| LegacyFramework.LegacyEventDispatcher.PostEvent | app/src/main/java/android/example/com/uicommunication/framework/LifecycleEventDispatcher.java:111-125 | the dispatching rule's post |
| LegacyFramework.LegacyPostFate | app/src/main/java/android/example/com/uicommunication/framework/LifecycleEventDispatcher.java:111-125 | with no destroyed state, a post is delivered exactly when ready; a storing dispatcher queues every event it does not deliver, a non-storing one never queues |
| CachingCalculator.Lookup | sample/src/main/java/com/talk4date/android/lifecycle/sample/service/CachingCalculatorService.java:65-72 | no result exactly when a has no inner map or b is missing from it |
| CachingCalculator.Store | sample/src/main/java/com/talk4date/android/lifecycle/sample/service/CachingCalculatorService.java:48-57 | a is present afterwards and no other outer key is added |
| CachingCalculator.LookupAfterStore | sample/src/main/java/com/talk4date/android/lifecycle/sample/service/CachingCalculatorService.java:48-72 | a stored result is found again |
| CachingCalculator.LookupOtherAfterStore | sample/src/main/java/com/talk4date/android/lifecycle/sample/service/CachingCalculatorService.java:48-72 | storing leaves every other pair's lookup unchanged, other b under the same a included |
| CachingCalculator.StoreCachedPairs | sample/src/main/java/com/talk4date/android/lifecycle/sample/service/CachingCalculatorService.java:48-72 | after a store, a pair is cached exactly when it was cached before or is the stored pair |
| CachingCalculator.Sum | sample/src/main/java/com/talk4date/android/lifecycle/sample/service/CachingCalculatorService.java:91 | Java's int addition: exact inside the int range, congruent modulo 2^32 |
| CachingCalculator.StoreKeepsCorrect | sample/src/main/java/com/talk4date/android/lifecycle/sample/service/CachingCalculatorService.java:91-92 | storing the sum keeps every cached result equal to the sum of its operands |
| CachingCalculator.CorrectLookup | sample/src/main/java/com/talk4date/android/lifecycle/sample/service/CachingCalculatorService.java:84-86 | a cache holding only sums answers with the sum |
| CachingCalculator.CachingCalculatorService.constructor | sample/src/main/java/com/talk4date/android/lifecycle/sample/service/CachingCalculatorService.java:39 | the cache, the posts and the scheduled tasks start empty |
| CachingCalculator.CachingCalculatorService.CacheAddResult | sample/src/main/java/com/talk4date/android/lifecycle/sample/service/CachingCalculatorService.java:48-57 | the cache becomes Store of the old cache |
| CachingCalculator.CachingCalculatorService.Add | sample/src/main/java/com/talk4date/android/lifecycle/sample/service/CachingCalculatorService.java:83-97 | a cached pair posts its sum at once and schedules nothing; an uncached pair posts nothing and schedules one task |
| CachingCalculator.CachingCalculatorService.RunScheduled | sample/src/main/java/com/talk4date/android/lifecycle/sample/service/CachingCalculatorService.java:88-95 | the oldest task caches the sum and then posts it to its receiver |
| Scenarios.FreshLifecycle | lifecycle/src/main/java/com/talk4date/android/lifecycle/ActivityBasedLifecycle.java:11-40 | a new lifecycle is new, not restored, and so new or restored |
| Scenarios.BufferedUntilActive | lifecycle/src/main/java/com/talk4date/android/lifecycle/LifecycleEventDispatcher.java:137-183 | two events posted while inactive reach the listener, in order, when the lifecycle becomes active |
| Scenarios.DroppedWhileInactive | lifecycle/src/main/java/com/talk4date/android/lifecycle/LifecycleEventDispatcher.java:179-181 | an event posted while inactive to a non-storing dispatcher is never delivered |
| Scenarios.QueuedForNextListener | lifecycle/src/main/java/com/talk4date/android/lifecycle/BaseLifecycle.java:58-87 | an event queued before the listener was invalidated reaches the listener registered next under the same tag |
| Scenarios.ConfigurationChange | lifecycle/src/main/java/com/talk4date/android/lifecycle/FragmentLifecycle.java:151-205 | after save, destroy without removal and re-create, the fragment has the same session lifecycle, neither new nor restored, and a new instance lifecycle |
| Scenarios.ProcessRestart | lifecycle/src/main/java/com/talk4date/android/lifecycle/FragmentLifecycle.java:163-170 | a fragment created from saved state in an empty registry gets a restored, not new, session lifecycle |
| Scenarios.RemovedFragment | lifecycle/src/main/java/com/talk4date/android/lifecycle/FragmentLifecycle.java:187-205 | destroying a removing fragment destroys its session lifecycle and unregisters its instance lifecycle without destroying it |
| Scenarios.SavedStateWithoutId | lifecycle/src/main/java/com/talk4date/android/lifecycle/FragmentLifecycle.java:147-150 | saved state without the id throws IllegalArgumentException and registers nothing |
| Scenarios.UtilRecreatedResumeAsWritten | lifecycle/src/main/java/com/talk4date/android/lifecycle/util/FragmentLifecycle.java:99-124 | with the code as written, resuming a re-created fragment throws IllegalStateException |
| Scenarios.UtilRecreatedResumeMapped | lifecycle/src/main/java/com/talk4date/android/lifecycle/util/FragmentLifecycle.java:99-124 | with the corrected create, the same run resumes the kept lifecycle |
| Scenarios.LegacyBufferedUntilActive | app/src/main/java/android/example/com/uicommunication/framework/LifecycleEventDispatcher.java:55-125 | an event queued while inactive is delivered when the active-change callback runs |
| Scenarios.RepeatedAddIsCached | sample/src/main/java/com/talk4date/android/lifecycle/sample/service/CachingCalculatorService.java:83-97 | the first add of a pair is scheduled; after it ran, the same add is answered at once with the same sum |
| FailFast.ForEachOnDestroy | lifecycle/src/main/java/com/talk4date/android/lifecycle/UnmanagedEventReceiver.java:49-53 | the Java destroy loop over the live list, for ArrayList's and LinkedList's fail-fast iterators: with no group in the list every entry is called and the loop completes; otherwise exactly the entries up to the first group are called, and the loop then ends or throws ConcurrentModificationException as hasNext over the shortened list decides |
| FailFast.UnmanagedReceiverInOneGroup | lifecycle/src/main/java/com/talk4date/android/lifecycle/UnmanagedEventReceiver.java:49-53 | as written, destroying an unmanaged receiver held by one group calls that group and then throws ConcurrentModificationException |
| FailFast.DispatcherInTwoGroups | lifecycle/src/main/java/com/talk4date/android/lifecycle/LifecycleEventDispatcher.java:90-92 | as written, destroying a dispatcher held by two groups calls only the first group and completes |

## Left out

- Threads: postEvent off the main thread hands the call to a main-looper Handler. Only the main-thread path is modelled, and the Handler queue of the calculator service is a FIFO sequence.
- The 5-second delay of CachingCalculatorService.add; the order of scheduled tasks is kept.
- Re-entrancy: client callbacks are recorded, not run. A client cannot post, register or destroy from inside a callback.
- Loops over live listener lists. The onDestroy loops of LifecycleEventDispatcher and UnmanagedEventReceiver iterate over a snapshot taken at loop entry, which is the behaviour the code evidently intends. The Java loops run over the live list, and that defect is the second and third rows under "## Findings"; FailFast.ForEachOnDestroy models it on its own, and the rest of the model does not use it.
- Lifecycle.EventReceivers.PostEvent: each receiver's deliveries are logged on that receiver, so the contract gives every receiver its events, once per registration, but not the order in which the loop reaches different receivers (list order in Java). For the same reason, the order of a dispatcher's drain relative to the client callbacks and to other dispatchers' drains within one Lifecycle.BaseLifecycle.SetActive or Destroy is not captured; within one receiver and within one log the order is kept.
- The IllegalStateException of dispatchEvent when no listener is bound: both callers check readyForEvent first, so it cannot be thrown. DispatchEvent requires a bound listener. The same holds in the legacy dispatcher.
- Lifecycle.BaseLifecycle.SetActive, Destroy and RegisterListener require a lifecycle that is not destroyed, so use after destroy is not modelled. In Java some of those calls fail and some complete. A destroyed dispatcher has dropped its lifecycle reference, so any call that reaches its readyForEvent (LifecycleEventDispatcher.java:118-120) dereferences null: setActive with a change of the flag, a second destroy() and registerListener under a tag already registered all do that when the lifecycle has dispatchers. On a lifecycle without dispatchers, setActive flips the flag and calls the active-change listeners, and a second destroy() calls the destroy listeners again. registerListener under a new tag creates a new, live dispatcher (BaseLifecycle.java:78-87).
- Lifecycle.BaseLifecycle.AddActiveChangeListener, RemoveActiveChangeListener, AddOnDestroyListener and RemoveOnDestroyListener take only a client listener. The public Lifecycle interface (Lifecycle.java:21-36) accepts any listener, including a LifecycleEventDispatcher. A dispatcher can also subscribe itself through its public constructor (LifecycleEventDispatcher.java:66-72) without being registered under a tag. BaseLifecycle.Valid requires every dispatcher in the listener lists to be one registered under a tag, so the model excludes both inputs. In the repository only registerListener constructs a dispatcher (BaseLifecycle.java:81), and only that constructor passes a dispatcher to these methods, so no result changes.
- Fragment, Activity and Bundle are abstracted: a fragment is a number, fragment.isRemoving() or getActivity().isFinishing() is a parameter, and saved state is the optional id it carries.
- The UUID behind processUniqueId is a parameter.
- The static registries and the static counter are objects, one per registry class.
- The framework Lifecycle interface has no implementation in the repository. LegacyFramework.HostLifecycle stands in for it, and its active-change callbacks are the dispatchers' dispatchPendingIfReady, run by the caller.
- EventReceiver.OnDestroyListener is declared without a type parameter and with a no-argument onDestroy(). EventReceivers, UnmanagedEventReceiver and LifecycleEventDispatcher use it as OnDestroyListener<T> with onDestroy(receiver). The model follows those uses.
- Client listeners are identified by number and events are integers; Java generics are not modelled.
- Logging is not modelled.
- cacheAddResult updates the inner HashMap in place, and the model stores a new inner map. Nothing else holds the inner map, so the result is the same.
- The calculator's EventReceiver is identified by number; what it does with a posted result is the dispatching rule above.
- A fragment's instance lifecycle is removed from the registry on onFragmentDestroy (FragmentLifecycle.java:191) but never destroyed, although the comment at FragmentLifecycle.java:190 and the documentation at FragmentLifecycle.java:71 say it is. Its dispatchers are therefore never destroyed and stay in the EventReceivers groups they joined. The model follows the code; Scenarios.RemovedFragment shows it.
- Ids are Java ints and repeat after 2^32 issues (FragmentIds.IssuedIdsRepeatAfterWrap). The registries do not guard against that repeat, and neither does the model.

## Findings

| source | as written | input that shows it | evidently intended | confidence | as-written member | corrected member |
|---|---|---|---|---|---|---|
| lifecycle/src/main/java/com/talk4date/android/lifecycle/util/FragmentLifecycle.java:99-112 | creating a fragment from a saved id finds or makes its session lifecycle but never maps the fragment to the id | create fragment 1 without state, save, destroy 1, create fragment 2 from the saved state, resume 2: fragmentSessionLifecycle throws IllegalStateException | map the fragment to the saved id, as line 151 of FragmentLifecycle.java does | not executed | SessionRegistry.FragmentSessionLifecycles.OnFragmentCreate | SessionRegistry.FragmentSessionLifecycles.OnFragmentCreateMapped |
| lifecycle/src/main/java/com/talk4date/android/lifecycle/UnmanagedEventReceiver.java:49-53 | the destroy loop iterates over the live ArrayList while each EventReceivers group it calls removes its own entry (EventReceivers.java:18-26, UnmanagedEventReceiver.java:61-63) | an UnmanagedEventReceiver registered in a single EventReceivers group is destroyed: on the OpenJDK java.util of Android 7.0 and later, after the group's call ArrayList's hasNext sees cursor 1 != size 0 and next() throws ConcurrentModificationException; in general the entries after the first group are never called, and the loop throws unless exactly one entry follows that group | call every listener of the list as it was when the loop started | not executed; the iterators of releases before Android 7.0 may end these loops differently | FailFast.UnmanagedReceiverInOneGroup | Lifecycle.UnmanagedEventReceiver.NotifyOnDestroyListeners |
| lifecycle/src/main/java/com/talk4date/android/lifecycle/LifecycleEventDispatcher.java:90-92 | the onDestroy loop iterates over the live LinkedList while each EventReceivers group it calls removes its own entry (LifecycleEventDispatcher.java:196-198) | a dispatcher registered in two EventReceivers groups is destroyed: on the OpenJDK java.util of Android 7.0 and later, after the first group's call LinkedList's hasNext sees nextIndex 1 < size 1 false, so the second group is never called and keeps the destroyed dispatcher; in general the entries after the first group are never called, and next() throws ConcurrentModificationException when two or more entries follow that group | call every listener of the list as it was when the loop started | not executed; the iterators of releases before Android 7.0 may end these loops differently | FailFast.DispatcherInTwoGroups | Lifecycle.LifecycleEventDispatcher.NotifyOnDestroyListeners |
