/** The java.util.List operations the core relies on, as functions on sequences. */
module Seqs {

  /** The list after List.remove(Object): the first occurrence of x is gone; nothing changes when x is absent. */
  function RemoveFirst<T(==)>(s: seq<T>, x: T): seq<T>
  {
    if s == [] then []
    else if s[0] == x then s[1..]
    else [s[0]] + RemoveFirst(s[1..], x)
  }

  /** The list after n successive calls of List.remove(x). */
  function RemoveN<T(==)>(s: seq<T>, x: T, n: nat): seq<T>
  {
    if n == 0 then s else RemoveFirst(RemoveN(s, x, n - 1), x)
  }

  /** Number of occurrences of x in s (counted from the back, so that a loop over a prefix extends it). */
  function Count<T(==)>(s: seq<T>, x: T): nat
  {
    if s == [] then 0 else Count(s[..|s| - 1], x) + (if s[|s| - 1] == x then 1 else 0)
  }

  /** n copies of x. */
  function Repeat<T>(x: T, n: nat): (r: seq<T>)
    ensures |r| == n
    ensures forall i :: 0 <= i < n ==> r[i] == x
  {
    if n == 0 then [] else Repeat(x, n - 1) + [x]
  }

  lemma CountAppend<T>(s: seq<T>, y: T, x: T)
    ensures Count(s + [y], x) == Count(s, x) + (if y == x then 1 else 0)
  {
    assert (s + [y])[..|s|] == s;
  }

  lemma CountPrefixStep<T>(s: seq<T>, i: nat, x: T)
    requires i < |s|
    ensures Count(s[..i + 1], x) == Count(s[..i], x) + (if s[i] == x then 1 else 0)
  {
    assert s[..i + 1][..i] == s[..i];
  }

  /** Removing an absent element leaves the list as it was. */
  lemma {:induction false} RemoveFirstAbsent<T>(s: seq<T>, x: T)
    requires x !in s
    ensures RemoveFirst(s, x) == s
  {
    if s != [] {
      assert s[0] != x;
      RemoveFirstAbsent(s[1..], x);
    }
  }

  /** When the first occurrence of x is at index i, removal cuts out exactly that entry and
      keeps every other entry in its relative order. */
  lemma {:induction false} RemoveFirstAt<T>(s: seq<T>, x: T, i: nat)
    requires i < |s| && s[i] == x && x !in s[..i]
    ensures RemoveFirst(s, x) == s[..i] + s[i + 1..]
  {
    if i > 0 {
      assert s[0] == s[..i][0];
      assert s[1..][..i - 1] == s[..i][1..];
      RemoveFirstAt(s[1..], x, i - 1);
      assert s[1..][i - 1 + 1..] == s[i + 1..];
      assert [s[0]] + s[1..][..i - 1] == s[..i];
    }
  }

  /** Removal takes away exactly one copy of x when x is present, and no other element. */
  lemma {:induction false} RemoveFirstMultiset<T>(s: seq<T>, x: T)
    ensures multiset(RemoveFirst(s, x)) == multiset(s) - multiset{x}
  {
    if s != [] {
      assert s == [s[0]] + s[1..];
      if s[0] != x {
        RemoveFirstMultiset(s[1..], x);
      }
    }
  }

  /** Removing x keeps every other element. */
  lemma RemoveFirstKeeps<T>(s: seq<T>, x: T, y: T)
    requires y != x
    ensures y in RemoveFirst(s, x) <==> y in s
  {
    RemoveFirstMultiset(s, x);
    assert y in multiset(RemoveFirst(s, x)) <==> y in multiset(s);
  }

  /** Appending an element that was absent and then removing it restores the list. */
  lemma AppendThenRemove<T>(s: seq<T>, x: T)
    requires x !in s
    ensures RemoveFirst(s + [x], x) == s
  {
    RemoveFirstAt(s + [x], x, |s|);
    assert (s + [x])[..|s|] == s;
  }

  /** Removing a copy of x does not affect the count of a different element. */
  lemma RemoveFirstCountOther<T>(s: seq<T>, x: T, y: T)
    requires y != x
    ensures Count(RemoveFirst(s, x), y) == Count(s, y)
  {
    RemoveFirstMultiset(s, x);
    CountIsMultiplicity(s, y);
    CountIsMultiplicity(RemoveFirst(s, x), y);
  }

  lemma {:induction false} CountIsMultiplicity<T>(s: seq<T>, x: T)
    ensures Count(s, x) == multiset(s)[x]
  {
    if s != [] {
      var p := s[..|s| - 1];
      assert s == p + [s[|s| - 1]];
      CountIsMultiplicity(p, x);
    }
  }
  /** a - b, or 0 when b exceeds a. */
  function Monus(a: nat, b: nat): nat
  {
    if a >= b then a - b else 0
  }

  /** An element that is absent occurs zero times. */
  lemma CountAbsent<T>(s: seq<T>, x: T)
    requires x !in s
    ensures Count(s, x) == 0
  {
    CountIsMultiplicity(s, x);
  }

  /** One List.remove(y) takes one occurrence of y, if there is one, and leaves every other count alone. */
  lemma CountRemoveFirst<T>(s: seq<T>, y: T, x: T)
    ensures Count(RemoveFirst(s, y), x) == if x == y then Monus(Count(s, x), 1) else Count(s, x)
  {
    RemoveFirstMultiset(s, y);
    CountIsMultiplicity(s, x);
    CountIsMultiplicity(RemoveFirst(s, y), x);
  }

  /** n calls List.remove(y) take min(n, count) occurrences of y and leave every other count alone. */
  lemma {:induction false} CountRemoveN<T>(s: seq<T>, y: T, n: nat, x: T)
    ensures Count(RemoveN(s, y, n), x) == if x == y then Monus(Count(s, x), n) else Count(s, x)
  {
    if n > 0 {
      CountRemoveN(s, y, n - 1, x);
      CountRemoveFirst(RemoveN(s, y, n - 1), y, x);
    }
  }
}
