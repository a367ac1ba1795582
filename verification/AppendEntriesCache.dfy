/** The cache of out-of-order AppendEntries requests on a follower. */
module AppendEntriesCaches {
  import opened Types

  /** A request for the `size` entries behind index `prev`; `id` tells calls apart. */
  datatype Request = Request(id: nat, prev: nat, size: nat) {
    function End(): nat {
      prev + size
    }

    predicate Overlaps(that: Request) {
      prev < that.End() && that.prev < End()
    }
  }

  /** The map from `prev` to request, as a sequence in key order: each request ends before the next begins. */
  ghost predicate Ordered(m: seq<Request>) {
    && (forall i | 0 <= i < |m| :: m[i].size > 0)
    && (forall i, j | 0 <= i < j < |m| :: m[i].End() <= m[j].prev)
  }

  /** The first position whose key is not below `prev`. */
  method LowerBound(m: seq<Request>, prev: nat) returns (pos: nat)
    requires Ordered(m)
    ensures pos <= |m|
    ensures forall i | 0 <= i < pos :: m[i].prev < prev
    ensures forall i | pos <= i < |m| :: m[i].prev >= prev
  {
    pos := 0;
    while pos < |m| && m[pos].prev < prev
      invariant pos <= |m|
      invariant forall i | 0 <= i < pos :: m[i].prev < prev
    {
      pos := pos + 1;
    }
  }

  /** The map with one more request, in its place. */
  function Inserted(m: seq<Request>, r: Request): seq<Request> {
    if m == [] || m[0].prev >= r.prev then [r] + m else [m[0]] + Inserted(m[1..], r)
  }

  lemma {:induction false} InsertedAt(m: seq<Request>, r: Request, pos: nat)
    requires pos <= |m| && (forall i | 0 <= i < pos :: m[i].prev < r.prev) && (pos < |m| ==> m[pos].prev >= r.prev)
    ensures Inserted(m, r) == m[..pos] + [r] + m[pos..]
  {
    if pos > 0 {
      InsertedAt(m[1..], r, pos - 1);
      assert m[..pos] == [m[0]] + m[1..][..pos - 1] && m[pos..] == m[1..][pos - 1..];
    } else {
      assert m[..pos] == [] && m[pos..] == m;
    }
  }

  /** The requests that stay when a new one comes: an overlapping one drives all others out. */
  function Beside(m: seq<Request>, r: Request): seq<Request> {
    if exists i :: 0 <= i < |m| && m[i].Overlaps(r) then [] else m
  }

  /** What the map holds when a request has been stored: those with the largest indices leave above the limit, and
      without a timer a first request does not stay. */
  function Kept(m: seq<Request>, r: Request, limit: nat, timerStarted: bool): seq<Request> {
    var all := Inserted(Beside(m, r), r);
    if Beside(m, r) == [] && !timerStarted then [] else if |all| > limit then all[..limit] else all
  }

  /** The list without its first occurrence of `r`. */
  function Without(list: seq<Request>, r: Request): (rest: seq<Request>)
    requires r in list
    ensures multiset(rest) + multiset{r} == multiset(list)
  {
    if list[0] == r then
      assert list == [r] + list[1..];
      list[1..]
    else
      assert list == [list[0]] + list[1..];
      [list[0]] + Without(list[1..], r)
  }

  /** The request belongs between the positions before and from `pos` on. */
  ghost predicate Fits(m: seq<Request>, pos: nat, r: Request) {
    && pos <= |m| && r.size > 0
    && (forall i | 0 <= i < pos :: m[i].End() <= r.prev) && (forall i | pos <= i < |m| :: r.End() <= m[i].prev)
  }

  lemma Insertion(m: seq<Request>, pos: nat, r: Request)
    requires Ordered(m) && Fits(m, pos, r)
    ensures Ordered(m[..pos] + [r] + m[pos..])
  {
    var all := m[..pos] + [r] + m[pos..];
    forall i, j | 0 <= i < j < |all|
      ensures all[i].End() <= all[j].prev
    {
      assert i < pos ==> all[i] == m[i];
      assert i > pos ==> all[i] == m[i - 1];
      assert j > pos ==> all[j] == m[j - 1];
    }
  }

  /** Where a request belongs when none overlaps it. */
  lemma {:induction false} SomePlace(m: seq<Request>, r: Request) returns (pos: nat)
    requires Ordered(m) && r.size > 0 && forall i | 0 <= i < |m| :: !m[i].Overlaps(r)
    ensures Fits(m, pos, r) && forall i | 0 <= i < pos :: m[i].prev < r.prev
  {
    pos := 0;
    while pos < |m| && m[pos].prev < r.prev
      invariant pos <= |m|
      invariant forall i | 0 <= i < pos :: m[i].prev < r.prev
    {
      pos := pos + 1;
    }
  }

  /** What stays when a request is stored: alone if it overlaps another one, otherwise beside all others, in order; above
      the limit the one with the largest index goes. A request that would be the first stays only with a timer. */
  lemma KeptExactly(m: seq<Request>, r: Request, limit: nat, timerStarted: bool)
    requires Ordered(m) && r.size > 0 && 0 < limit && |m| <= limit
    ensures var kept := Kept(m, r, limit, timerStarted);
            var alone := m == [] || exists i :: 0 <= i < |m| && m[i].Overlaps(r);
            && Ordered(kept)
            && (alone ==> kept == if timerStarted then [r] else [])
            && (!alone && |m| < limit ==> multiset(kept) == multiset(m) + multiset{r})
            && (!alone && |m| == limit ==>
                  exists x :: multiset(kept) + multiset{x} == multiset(m) + multiset{r} && forall y | y in kept :: y.prev < x.prev)
  {
    hide Inserted, Ordered;
    if exists i :: 0 <= i < |m| && m[i].Overlaps(r) {
      Alone(r);
    } else {
      var pos := SomePlace(m, r);
      InsertedAt(m, r, pos);
      Insertion(m, pos, r);
      InsertionSame(m, pos, r);
      LastLeaves(m[..pos] + [r] + m[pos..], limit);
      Alone(r);
    }
  }

  lemma Alone(r: Request)
    requires r.size > 0
    ensures Ordered([r]) && Ordered([]) && Inserted([], r) == [r]
  {
  }

  lemma LastLeaves(all: seq<Request>, limit: nat)
    requires Ordered(all)
    ensures limit < |all| ==> Ordered(all[..limit])
    ensures |all| == limit + 1 ==> multiset(all[..limit]) + multiset{all[limit]} == multiset(all)
    ensures |all| == limit + 1 ==> forall y | y in all[..limit] :: y.prev < all[limit].prev
  {
    if |all| == limit + 1 {
      assert all == all[..limit] + [all[limit]];
    }
  }

  lemma InsertionSame(m: seq<Request>, pos: nat, r: Request)
    requires pos <= |m|
    ensures multiset(m[..pos] + [r] + m[pos..]) == multiset(m) + multiset{r}
  {
    assert m[..pos] + m[pos..] == m;
  }

  /** The map holds the requests of the queue. */
  ghost predicate SameRequests(m: seq<Request>, q: seq<Request>) {
    multiset(m) == multiset(q)
  }

  /** Whatever was stored is in the queue or has been handled, and was stored once. */
  ghost predicate Conserved(stored: multiset<Request>, q: seq<Request>, handled: multiset<Request>) {
    stored == multiset(q) + handled && forall r | r in stored :: stored[r] == 1
  }

  lemma RemovedOrder(m: seq<Request>, pos: nat)
    requires Ordered(m) && pos < |m|
    ensures Ordered(m[..pos] + m[pos + 1..])
  {
  }

  lemma RemovedSame(m: seq<Request>, q: seq<Request>, pos: nat)
    requires SameRequests(m, q) && pos < |m|
    ensures m[pos] in q && SameRequests(m[..pos] + m[pos + 1..], Without(q, m[pos]))
  {
    var rest := m[..pos] + m[pos + 1..];
    assert m == m[..pos] + [m[pos]] + m[pos + 1..];
    assert m[pos] in multiset(q);
    assert multiset(rest) + multiset{m[pos]} == multiset(m);
    CancelOne(multiset(rest), multiset(Without(q, m[pos])), m[pos]);
  }

  lemma CancelOne(a: multiset<Request>, b: multiset<Request>, r: Request)
    requires a + multiset{r} == b + multiset{r}
    ensures a == b
  {
    forall x
      ensures a[x] == b[x]
    {
      assert (a + multiset{r})[x] == (b + multiset{r})[x];
    }
  }

  lemma HandledMore(handled: multiset<Request>, a: seq<Request>, b: seq<Request>)
    ensures handled + multiset(a) + multiset(b) == handled + multiset(a + b)
  {
  }

  lemma RemovedConserved(q: seq<Request>, stored: multiset<Request>, handled: multiset<Request>, r: Request)
    requires Conserved(stored, q, handled) && r in q
    ensures Conserved(stored, Without(q, r), handled + multiset{r})
  {
    assert multiset(Without(q, r)) + multiset{r} == multiset(q);
  }

  lemma AddsOne(m: seq<Request>, q: seq<Request>, stored: multiset<Request>, handled: multiset<Request>, pos: nat, r: Request)
    requires Ordered(m) && SameRequests(m, q) && Conserved(stored, q, handled) && Fits(m, pos, r) && r !in stored
    ensures Ordered(m[..pos] + [r] + m[pos..]) && SameRequests(m[..pos] + [r] + m[pos..], q + [r])
    ensures Conserved(stored + multiset{r}, q + [r], handled) && Inserted(m, r) == m[..pos] + [r] + m[pos..]
  {
    hide Ordered;
    Insertion(m, pos, r);
    InsertionSame(m, pos, r);
    FitsInserted(m, pos, r);
  }

  lemma FitsInserted(m: seq<Request>, pos: nat, r: Request)
    requires Ordered(m) && Fits(m, pos, r)
    ensures Inserted(m, r) == m[..pos] + [r] + m[pos..]
  {
    InsertedAt(m, r, pos);
  }

  lemma AllHandled(stored: multiset<Request>, q: seq<Request>, handled: multiset<Request>)
    requires Conserved(stored, q, handled)
    ensures Conserved(stored, [], handled + multiset(q))
  {
  }

  class AppendEntriesCache {
    const limit: nat
    var rpcMap: seq<Request>
    var rpcQueue: seq<Request>
    ghost var stored: multiset<Request>
    ghost var handled: multiset<Request>

    /** Map and queue hold the same requests, with disjoint ranges; whatever was stored is here or has left. */
    ghost predicate Valid()
      reads this
    {
      Ordered(rpcMap) && SameRequests(rpcMap, rpcQueue) && Conserved(stored, rpcQueue, handled) && limit > 0
    }

    constructor (limit: nat)
      requires limit > 0
      ensures Valid() && this.limit == limit && rpcMap == [] && stored == multiset{} && handled == multiset{}
    {
      this.limit := limit;
      rpcMap, rpcQueue, stored, handled := [], [], multiset{}, multiset{};
    }

    static method Drain(queue: seq<Request>) returns (out: seq<Request>)
      ensures out == queue
    {
      out := [];
      var rest := queue;
      while rest != []
        invariant out + rest == queue
        decreases |rest|
      {
        out, rest := out + [rest[0]], rest[1..];
      }
    }

    /** Hands every request out, in the order of arrival. */
    method Clear() returns (released: seq<Request>)
      requires Valid()
      modifies this
      ensures Valid() && rpcMap == [] && rpcQueue == [] && released == old(rpcQueue)
      ensures handled == old(handled) + multiset(released) && stored == old(stored)
    {
      AllHandled(stored, rpcQueue, handled);
      released := Drain(rpcQueue);
      hide Conserved;
      rpcMap, rpcQueue, handled := [], [], handled + multiset(released);
    }

    /** The neighbours of the new key tell whether the new request overlaps any stored one. */
    method NeedClear(rpc: Request) returns (need: bool, pos: nat)
      requires Valid() && rpc.size > 0
      ensures need <==> exists i :: 0 <= i < |rpcMap| && rpcMap[i].Overlaps(rpc)
      ensures !need ==> Fits(rpcMap, pos, rpc)
    {
      need := false;
      pos := LowerBound(rpcMap, rpc.prev);
      if pos != 0 && rpcMap[pos - 1].End() > rpc.prev {
        assert rpcMap[pos - 1].Overlaps(rpc);
        need := true;
      }
      if !need && pos != |rpcMap| && rpcMap[pos].prev < rpc.End() {
        assert rpcMap[pos].Overlaps(rpc);
        need := true;
      }
    }

    /** Clears the cache when the new request overlaps a stored one, and finds the place of its key. */
    method MakeRoom(rpc: Request) returns (released: seq<Request>, pos: nat)
      requires Valid() && rpc.size > 0
      modifies this
      ensures Valid() && stored == old(stored) && handled == old(handled) + multiset(released)
      ensures Fits(rpcMap, pos, rpc) && rpcMap == Beside(old(rpcMap), rpc)
      ensures released == if rpcMap == old(rpcMap) then [] else old(rpcQueue)
    {
      released, pos := [], 0;
      if rpcMap != [] {
        var need;
        need, pos := NeedClear(rpc);
        if need {
          released := Clear();
          pos := 0;
        }
      }
    }

    /** Stores a request: `Kept` says what stays. When it overlaps another one, the others leave first, in the order of
        their arrival. */
    method Store(rpc: Request, timerStarted: bool) returns (released: seq<Request>)
      requires Valid() && rpc.size > 0 && rpc !in stored && |rpcMap| <= limit
      modifies this
      ensures Valid() && rpcMap == Kept(old(rpcMap), rpc, limit, timerStarted)
      ensures stored == old(stored) + multiset{rpc} && handled == old(handled) + multiset(released)
      ensures Beside(old(rpcMap), rpc) != old(rpcMap) ==> old(rpcQueue) <= released
    {
      hide Conserved, SameRequests, Ordered, Inserted, Beside, Fits;
      var pos;
      released, pos := MakeRoom(rpc);
      AddsOne(rpcMap, rpcQueue, stored, handled, pos, rpc);
      rpcQueue := rpcQueue + [rpc];
      rpcMap := rpcMap[..pos] + [rpc] + rpcMap[pos..];
      stored := stored + multiset{rpc};
      if |rpcMap| == 1 && !timerStarted {
        var rest := Clear();
        HandledMore(old(handled), released, rest);
        released := released + rest;
      } else {
        var evicted := Evict();
        HandledMore(old(handled), released, evicted);
        released := released + evicted;
      }
    }

    method Evict() returns (released: seq<Request>)
      requires Valid() && rpcMap != []
      modifies this
      ensures Valid() && rpcMap == old(if |rpcMap| > limit then rpcMap[..limit] else rpcMap) && stored == old(stored)
      ensures |released| == |old(rpcMap)| - |rpcMap| && handled == old(handled) + multiset(released)
    {
      hide Conserved, SameRequests, Ordered;
      released := [];
      while |rpcMap| > limit
        invariant Valid() && rpcMap <= old(rpcMap) && (rpcMap == old(rpcMap) || |rpcMap| >= limit) && stored == old(stored)
        invariant |released| == |old(rpcMap)| - |rpcMap| && handled == old(handled) + multiset(released)
        decreases |rpcMap|
      {
        var rpc := Erase(|rpcMap| - 1);
        released := released + [rpc];
      }
    }

    /** Takes one request out of map and queue. */
    method Erase(pos: nat) returns (rpc: Request)
      requires Valid() && pos < |rpcMap|
      modifies this
      ensures Valid() && rpc == old(rpcMap)[pos] && rpcMap == old(rpcMap)[..pos] + old(rpcMap)[pos + 1..]
      ensures handled == old(handled) + multiset{rpc} && stored == old(stored)
    {
      hide Conserved, SameRequests, Ordered;
      RemovedOrder(rpcMap, pos);
      RemovedSame(rpcMap, rpcQueue, pos);
      RemovedConserved(rpcQueue, stored, handled, rpcMap[pos]);
      rpc := rpcMap[pos];
      rpcQueue := Without(rpcQueue, rpc);
      rpcMap := rpcMap[..pos] + rpcMap[pos + 1..];
      handled := handled + multiset{rpc};
    }

    /** Hands out, in index order, every request that can follow the local log once the ones before it are in. */
    method ProcessRunableRpcs(localLastIndex: nat) returns (released: seq<Request>)
      requires Valid() && rpcMap != []
      modifies this
      ensures Valid() && released + rpcMap == old(rpcMap) && stored == old(stored)
      ensures handled == old(handled) + multiset(released)
      ensures Follow(released, localLastIndex)
      ensures rpcMap != [] ==> rpcMap[0].prev > Reached(released, localLastIndex)
    {
      hide Conserved, SameRequests, Ordered, Follow, Reached;
      released := [];
      FollowNone(localLastIndex);
      var local := localLastIndex;
      while rpcMap != [] && rpcMap[0].prev <= local
        invariant Valid() && released + rpcMap == old(rpcMap) && stored == old(stored)
        invariant handled == old(handled) + multiset(released)
        invariant local == Reached(released, localLastIndex)
        invariant Follow(released, localLastIndex)
        decreases |rpcMap|
      {
        local := rpcMap[0].End();
        var rpc := Erase(0);
        HandledMore(old(handled), released, [rpc]);
        FollowOneMore(released, rpc, localLastIndex);
        released := released + [rpc];
      }
    }

    /** The timer fired for the oldest request, or for one that is gone: then a new timer is started. */
    method TimedOut(current: bool, headIsOld: bool, timerStarted: bool) returns (released: seq<Request>)
      requires Valid() && (current ==> rpcMap != [])
      modifies this
      ensures Valid() && stored == old(stored) && handled == old(handled) + multiset(released)
      ensures if current && (headIsOld || !timerStarted) then rpcMap == [] && released == old(rpcQueue)
              else rpcMap == old(rpcMap) && released == []
    {
      released := [];
      if !current {
        return;
      }
      if headIsOld {
        released := Clear();
        return;
      }
      if !timerStarted {
        released := Clear();
      }
    }
  }

  /** The last index of the local log once `requests` are appended to it. */
  function Reached(requests: seq<Request>, local: nat): nat {
    if requests == [] then local else requests[|requests| - 1].End()
  }

  /** Each request starts at or before the end of the local log with the earlier requests appended. */
  ghost predicate Follow(requests: seq<Request>, local: nat) {
    requests != [] ==>
      var before := requests[..|requests| - 1];
      Follow(before, local) && requests[|requests| - 1].prev <= Reached(before, local)
  }

  lemma FollowNone(local: nat)
    ensures Follow([], local) && Reached([], local) == local
  {
  }

  lemma FollowOneMore(requests: seq<Request>, r: Request, local: nat)
    requires Follow(requests, local) && r.prev <= Reached(requests, local)
    ensures Follow(requests + [r], local) && Reached(requests + [r], local) == r.End()
  {
    assert (requests + [r])[..|requests|] == requests;
  }

  /** How the node uses its cache; the cache exists only while it is needed. */
  class CacheOwner {
    var cache: AppendEntriesCache?
    const limit: nat

    ghost predicate Valid()
      reads this, cache
    {
      limit > 0 && (cache != null ==> cache.Valid() && cache.limit == limit && |cache.rpcMap| <= limit)
    }

    /** The checks of the cache ask for this: an existing cache is not empty. */
    ghost predicate NeverEmpty()
      reads this, cache
    {
      cache != null ==> cache.rpcMap != []
    }

    constructor (limit: nat)
      requires limit > 0
      ensures Valid() && NeverEmpty() && this.limit == limit && cache == null
    {
      this.limit, cache := limit, null;
    }

    /** Caches a request that leaves a gap behind the local log. The cache is dropped only after a refusal, and
        `Store` never refuses: an empty cache stays behind exactly when its first timer could not be started. */
    method HandleOutOfOrder(enabled: bool, localLastIndex: nat, rpc: Request, timerStarted: bool) returns (cached: bool)
      requires Valid() && NeverEmpty() && (cache != null ==> rpc !in cache.stored)
      modifies this, cache
      ensures Valid() && cached == (enabled && localLastIndex < rpc.prev && rpc.size > 0)
      ensures cached ==> cache != null
      ensures !cached ==> cache == old(cache) && NeverEmpty()
      ensures cached ==> CachedMap() == Kept(old(CachedMap()), rpc, limit, timerStarted)
      ensures cached ==> (NeverEmpty() <==> timerStarted || Beside(old(CachedMap()), rpc) != [])
    {
      if !enabled || localLastIndex >= rpc.prev || rpc.size == 0 {
        return false;
      }
      if cache == null {
        cache := new AppendEntriesCache(limit);
      }
      var _ := cache.Store(rpc, timerStarted);
      cached := true;
    }

    function CachedMap(): seq<Request>
      reads this, cache
    {
      if cache == null then [] else cache.rpcMap
    }

    /** The log has grown; the check inside the cache is why the cache must not be empty. */
    method CheckCache(localLastIndex: nat) returns (released: seq<Request>)
      requires Valid() && NeverEmpty()
      modifies this, cache
      ensures Valid() && NeverEmpty() && released + CachedMap() == old(CachedMap())
      ensures Follow(released, localLastIndex)
      ensures CachedMap() != [] ==> CachedMap()[0].prev > Reached(released, localLastIndex)
      ensures cache == if released == old(CachedMap()) then null else old(cache)
    {
      released := [];
      if cache == null {
        return;
      }
      released := cache.ProcessRunableRpcs(localLastIndex);
      if cache.rpcMap == [] {
        cache := null;
      }
    }

    /** The timer fired, maybe for a cache that is gone. A cache that the timer empties is dropped; one that was left
        empty would have stopped the process, as its check says. */
    method OnTimedOut(sameCache: bool, current: bool, headIsOld: bool, timerStarted: bool) returns (released: seq<Request>)
      requires Valid() && NeverEmpty()
      modifies this, cache
      ensures Valid() && NeverEmpty()
      ensures if old(cache) != null && sameCache && current && (headIsOld || !timerStarted)
              then cache == null && released == old(cache.rpcQueue)
              else cache == old(cache) && released == [] && CachedMap() == old(CachedMap())
    {
      released := [];
      if cache != null && sameCache {
        released := cache.TimedOut(current, headIsOld, timerStarted);
        if cache.rpcMap == [] {
          cache := null;
        }
      }
    }

    method ClearCache() returns (released: seq<Request>)
      requires Valid()
      modifies this, cache
      ensures Valid() && cache == null && released == old(if cache == null then [] else cache.rpcQueue)
    {
      released := [];
      if cache == null {
        return;
      }
      released := cache.Clear();
      cache := null;
    }
  }
}
