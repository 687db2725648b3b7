/**
 * The sample's CachingCalculatorService: additions answered from a nested cache a -> b -> result
 * when possible, otherwise computed by a Runnable handed to the main-loop Handler, which caches
 * the result and then posts it to the caller's EventReceiver.
 */
module CachingCalculator {
  import opened Wrappers
  import opened JavaInt

  /** Map<Integer, Map<Integer, Integer>> as a value. */
  type AddCache = map<int32, map<int32, int32>>

  /** getCachedAddResult: null (None) when a has no inner map or b is absent from it. */
  function Lookup(cache: AddCache, a: int32, b: int32): (r: Option<int32>)
    ensures r == None <==> a !in cache || b !in cache[a]
  {
    if a !in cache then None
    else if b !in cache[a] then None
    else Some(cache[a][b])
  }

  /** cacheAddResult: put result under b in a's inner map, creating that map if there is none. */
  function Store(cache: AddCache, a: int32, b: int32, result: int32): (c: AddCache)
    ensures a in c && c.Keys == cache.Keys + {a}
  {
    var inner := if a in cache then cache[a] else map[];
    cache[a := inner[b := result]]
  }

  /** A stored result is found again. */
  lemma LookupAfterStore(cache: AddCache, a: int32, b: int32, result: int32)
    ensures Lookup(Store(cache, a, b, result), a, b) == Some(result)
  {
  }

  /** Storing leaves every other pair's entry as it was, other b's under the same a included. */
  lemma LookupOtherAfterStore(cache: AddCache, a: int32, b: int32, result: int32, a': int32, b': int32)
    requires a' != a || b' != b
    ensures Lookup(Store(cache, a, b, result), a', b') == Lookup(cache, a', b')
  {
  }

  /** A pair is cached exactly when it was cached before or is the pair just stored. */
  lemma StoreCachedPairs(cache: AddCache, a: int32, b: int32, result: int32, a': int32, b': int32)
    ensures Lookup(Store(cache, a, b, result), a', b').Some? <==>
            (a' == a && b' == b) || Lookup(cache, a', b').Some?
  {
    if a' != a || b' != b {
      LookupOtherAfterStore(cache, a, b, result, a', b');
    }
  }

  /** int result = a + b, with Java's wrap-around. */
  function Sum(a: int32, b: int32): (r: int32)
    ensures INT_MIN <= a as int + b as int <= INT_MAX ==> r as int == a as int + b as int
    ensures (a as int + b as int - r as int) % TWO_32 == 0
  {
    Wrap32(a as int + b as int)
  }

  /** Every cached result is the Java sum of its two operands. */
  ghost predicate Correct(cache: AddCache)
  {
    forall a, b :: a in cache && b in cache[a] ==> cache[a][b] == Sum(a, b)
  }

  /** Storing a correct sum keeps the cache correct. */
  lemma StoreKeepsCorrect(cache: AddCache, a: int32, b: int32)
    requires Correct(cache)
    ensures Correct(Store(cache, a, b, Sum(a, b)))
  {
    var c := Store(cache, a, b, Sum(a, b));
    forall a', b' | a' in c && b' in c[a']
      ensures c[a'][b'] == Sum(a', b')
    {
      if a' != a || b' != b {
        LookupOtherAfterStore(cache, a, b, Sum(a, b), a', b');
      }
    }
  }

  /** What a correct cache returns is the sum. */
  lemma CorrectLookup(cache: AddCache, a: int32, b: int32)
    requires Correct(cache)
    ensures Lookup(cache, a, b).Some? ==> Lookup(cache, a, b).value == Sum(a, b)
  {
  }

  /** The caller's EventReceiver<Integer>, by identity. */
  type ReceiverId = nat

  /** One postEvent(result) call on a receiver. */
  datatype Post = Post(receiver: ReceiverId, result: int32)

  /** The Runnable add hands to handler.postDelayed, with the operands and receiver it captured. */
  datatype ScheduledAdd = ScheduledAdd(a: int32, b: int32, receiver: ReceiverId)

  class CachingCalculatorService {
    var addCache: AddCache
    /** The postEvent calls made so far, in order. */
    var posted: seq<Post>
    /** The Runnables posted to the Handler and not yet run, in the order they will run. */
    var scheduled: seq<ScheduledAdd>

    ghost predicate Valid()
      reads this
    {
      Correct(addCache)
    }

    constructor ()
      ensures Valid() && addCache == map[] && posted == [] && scheduled == []
    {
      addCache := map[];
      posted := [];
      scheduled := [];
    }

    /** cacheAddResult */
    method CacheAddResult(a: int32, b: int32, result: int32)
      modifies this`addCache
      ensures addCache == Store(old(addCache), a, b, result)
    {
      var bCache: map<int32, int32>;
      if a in addCache {
        bCache := addCache[a];
      } else {
        bCache := map[];
      }
      bCache := bCache[b := result];
      addCache := addCache[a := bCache];
    }

    /** add: a cached result is posted at once and nothing is scheduled; otherwise nothing is
        posted and a Runnable is scheduled. The 5-second delay is not modelled. */
    method Add(a: int32, b: int32, resultReceiver: ReceiverId)
      requires Valid()
      modifies this`posted, this`scheduled
      ensures Valid()
      ensures Lookup(addCache, a, b).Some? ==>
                posted == old(posted) + [Post(resultReceiver, Sum(a, b))] && scheduled == old(scheduled)
      ensures Lookup(addCache, a, b).None? ==>
                posted == old(posted) && scheduled == old(scheduled) + [ScheduledAdd(a, b, resultReceiver)]
    {
      CorrectLookup(addCache, a, b);
      var cachedResult := Lookup(addCache, a, b);
      if cachedResult.Some? {
        posted := posted + [Post(resultReceiver, cachedResult.value)];
      } else {
        scheduled := scheduled + [ScheduledAdd(a, b, resultReceiver)];
      }
    }

    /** The Handler runs the oldest scheduled Runnable: the sum is cached, then posted. */
    method RunScheduled()
      requires Valid() && scheduled != []
      modifies this
      ensures Valid()
      ensures var t := old(scheduled[0]);
              addCache == Store(old(addCache), t.a, t.b, Sum(t.a, t.b)) &&
              posted == old(posted) + [Post(t.receiver, Sum(t.a, t.b))] &&
              scheduled == old(scheduled[1..])
    {
      var t := scheduled[0];
      scheduled := scheduled[1..];
      var result := Sum(t.a, t.b);
      StoreKeepsCorrect(addCache, t.a, t.b);
      CacheAddResult(t.a, t.b, result);
      posted := posted + [Post(t.receiver, result)];
    }
  }
}
