/**
 * The onDestroy loops of LifecycleEventDispatcher and UnmanagedEventReceiver as the Java code
 * writes them: a for-each loop over the live listener list, in which a group that is called
 * removes itself from that very list. The iterators are the fail-fast ones of OpenJDK's
 * java.util.ArrayList (UnmanagedEventReceiver) and java.util.LinkedList
 * (LifecycleEventDispatcher). The rest of the model iterates over a snapshot instead.
 */
module FailFast {
  import opened Seqs
  import opened Lifecycle

  /** The list class behind the loop; the two differ only in their hasNext test. */
  datatype ListKind = ArrayList | LinkedList

  /** How the for-each loop ends: normally, or by ConcurrentModificationException from next(). */
  datatype LoopEnd = Completed | ConcurrentModification

  /** Iterator.hasNext: ArrayList's tests cursor != size, LinkedList's tests nextIndex < size. */
  predicate HasNext(kind: ListKind, cursor: nat, size: nat)
  {
    if kind == ArrayList then cursor != size else cursor < size
  }

  predicate NoGroupIn(s: seq<ReceiverDestroyListener>)
  {
    forall j :: 0 <= j < |s| ==> !s[j].Group?
  }

  /** Index i holds the first group of s. */
  predicate FirstGroupAt(s: seq<ReceiverDestroyListener>, i: int)
  {
    0 <= i < |s| && s[i].Group? && NoGroupIn(s[..i])
  }

  /** How the loop ends once the entry at index i of a list of size entries has removed itself:
      the cursor stands at i + 1 over size - 1 entries, and next() then finds the list modified. */
  function EndAfterRemoval(kind: ListKind, i: nat, size: nat): LoopEnd
    requires i < size
  {
    if HasNext(kind, i + 1, size - 1) then ConcurrentModification else Completed
  }

  /**
   * The for-each loop over the live list. A group's onDestroy unregisters the receiver from the
   * group, which removes the group's first entry from the list; a plain callback leaves the
   * list alone. next() throws once the list was modified behind the iterator's back.
   * Without a group every entry is called and the loop completes, as the snapshot loops do;
   * otherwise the loop stops right after the first group's call, skipping every later entry.
   */
  method ForEachOnDestroy(kind: ListKind, listeners: seq<ReceiverDestroyListener>)
      returns (calls: seq<ReceiverDestroyListener>, end: LoopEnd)
    ensures NoGroupIn(listeners) ==> calls == listeners && end == Completed
    ensures forall i :: FirstGroupAt(listeners, i) ==>
      calls == listeners[..i + 1] && end == EndAfterRemoval(kind, i, |listeners|)
  {
    var list := listeners;
    var cursor := 0;
    var modified := false;
    ghost var first := -1;
    calls := [];
    end := Completed;
    while HasNext(kind, cursor, |list|)
      invariant cursor <= |listeners|
      invariant !modified ==> list == listeners && calls == listeners[..cursor] && NoGroupIn(listeners[..cursor])
      invariant modified ==> FirstGroupAt(listeners, first) && cursor == first + 1 && calls == listeners[..cursor]
      invariant modified ==> list == listeners[..first] + listeners[first + 1..]
      decreases |listeners| - cursor + (if modified then 0 else 1)
    {
      if modified {
        end := ConcurrentModification;
        assert |list| == |listeners| - 1;
        return;
      }
      var e := list[cursor];
      calls := calls + [e];
      if e.Group? {
        assert listeners[..cursor + 1][..cursor] == listeners[..cursor];
        assert e !in listeners[..cursor];
        RemoveFirstAt(listeners, e, cursor);
        list := RemoveFirst(list, e);
        modified := true;
        first := cursor;
      } else {
        assert listeners[..cursor + 1][..cursor] == listeners[..cursor];
      }
      cursor := cursor + 1;
    }
    assert !modified ==> listeners[..cursor] == listeners;
    assert modified ==> |list| == |listeners| - 1;
  }

  /** An UnmanagedEventReceiver held by a single group: destroy() calls the group, which
      removes itself, and the iterator then throws ConcurrentModificationException. */
  method UnmanagedReceiverInOneGroup(g: EventReceivers) returns (calls: seq<ReceiverDestroyListener>, end: LoopEnd)
    ensures calls == [Group(g)] && end == ConcurrentModification
  {
    calls, end := ForEachOnDestroy(ArrayList, [Group(g)]);
    assert FirstGroupAt([Group(g)], 0);
  }

  /** A LifecycleEventDispatcher held by two groups: onDestroy calls the first group only,
      the loop completes, and the second group keeps the destroyed dispatcher. */
  method DispatcherInTwoGroups(g: EventReceivers, h: EventReceivers) returns (calls: seq<ReceiverDestroyListener>, end: LoopEnd)
    ensures calls == [Group(g)] && end == Completed
  {
    calls, end := ForEachOnDestroy(LinkedList, [Group(g), Group(h)]);
    assert FirstGroupAt([Group(g), Group(h)], 0);
  }
}
