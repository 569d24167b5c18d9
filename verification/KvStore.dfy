/**
 The prefix cache as a value, together with the block pool it pins blocks in.
 The LRU list is the sequence of entry hashes, most recently used first.
 */
module KvStore {
  import opened Bytes
  import opened BlockPool
  import Fnv

  const EVICT_SCAN_CAP: int := 1024

  datatype Entry = Entry(prevHash: u64, block: nat, tokens: seq<int32>)

  datatype CacheStats = CacheStats(lookups: nat, hits: nat, matchedBlocks: nat, inserts: nat, evictions: nat,
                                   evictShortfalls: nat)

  const NoStats: CacheStats := CacheStats(0, 0, 0, 0, 0, 0)

  datatype Cache = Cache(
    entries: map<u64, Entry>,
    lru: seq<u64>,
    blockSize: nat,
    maxEntries: nat,
    stats: CacheStats)

  datatype Store = Store(pool: Pool, cache: Cache)

  // ---------------------------------------------------------------- invariant

  predicate Different(s: seq<u64>) {
    forall i, j :: 0 <= i < j < |s| ==> s[i] != s[j]
  }

  ghost predicate CacheOk(c: Cache) {
    && c.blockSize > 0 && c.maxEntries > 0
    && Different(c.lru)
    && (forall h :: h in c.entries <==> h in c.lru)
  }

  // Pinned blocks and entries correspond one to one.
  ghost predicate Coupled(p: Pool, c: Cache) {
    && |p.cached| == |p.refs|
    && (forall h :: h in c.entries ==> c.entries[h].block < |p.refs| && p.cached[c.entries[h].block])
    && (forall h, g :: h in c.entries && g in c.entries && h != g ==> c.entries[h].block != c.entries[g].block)
    && (forall b :: 0 <= b < |p.cached| && p.cached[b] ==> exists h :: h in c.entries && c.entries[h].block == b)
  }

  ghost predicate StoreOk(s: Store) {
    PoolOk(s.pool) && CacheOk(s.cache) && Coupled(s.pool, s.cache)
  }

  // ---------------------------------------------------------------- eviction

  function Dropped(s: seq<u64>, i: nat): seq<u64>
    requires i < |s|
  {
    s[..i] + s[i + 1..]
  }

  // The entry at place i of the LRU list goes, and its block with it.
  function EvictAt(s: Store, i: nat): Store
    requires i < |s.cache.lru| && s.cache.lru[i] in s.cache.entries
    requires s.cache.entries[s.cache.lru[i]].block < |s.pool.cached|
  {
    var h := s.cache.lru[i];
    Store(EvictCached(s.pool, s.cache.entries[h].block),
          s.cache.(entries := s.cache.entries - {h}, lru := Dropped(s.cache.lru, i),
                   stats := s.cache.stats.(evictions := s.cache.stats.evictions + 1)))
  }

  lemma LruEntry(s: Store, i: nat)
    requires StoreOk(s) && i < |s.cache.lru|
    ensures s.cache.lru[i] in s.cache.entries
    ensures s.cache.entries[s.cache.lru[i]].block < |s.pool.refs| == |s.pool.cached|
    ensures s.pool.cached[s.cache.entries[s.cache.lru[i]].block]
  {
    hide PoolOk;
    assert s.cache.lru[i] in s.cache.lru;
  }

  lemma EvictAtKeeps(s: Store, i: nat)
    requires StoreOk(s) && i < |s.cache.lru|
    requires s.cache.lru[i] in s.cache.entries && s.cache.entries[s.cache.lru[i]].block < |s.pool.refs| == |s.pool.cached|
    requires s.pool.refs[s.cache.entries[s.cache.lru[i]].block] == 0
    ensures StoreOk(EvictAt(s, i))
    ensures EvictAt(s, i).cache.lru[..i] == s.cache.lru[..i]
    ensures EvictAt(s, i).pool.free == s.pool.free + [s.cache.entries[s.cache.lru[i]].block]
  {
    LruEntry(s, i);
    var h := s.cache.lru[i];
    EvictCachedKeeps(s.pool, s.cache.entries[h].block);
    EvictAtCacheOk(s.cache, i);
    EvictAtCoupled(s, i);
  }

  lemma EvictAtCacheOk(c: Cache, i: nat)
    requires CacheOk(c) && i < |c.lru|
    ensures CacheOk(c.(entries := c.entries - {c.lru[i]}, lru := Dropped(c.lru, i)))
  {
    DroppedOne(c.lru, i);
    hide Dropped, Different;
  }

  lemma DroppedOne(s: seq<u64>, i: nat)
    requires Different(s) && i < |s|
    ensures Different(Dropped(s, i)) && |Dropped(s, i)| == |s| - 1
    ensures forall h :: h in Dropped(s, i) <==> h in s && h != s[i]
  {
    var t := Dropped(s, i);
    assert forall j :: 0 <= j < |t| ==> t[j] == s[if j < i then j else j + 1];
    forall h | h in s && h != s[i] ensures h in t {
      var j :| 0 <= j < |s| && s[j] == h;
      assert t[if j < i then j else j - 1] == h;
    }
  }

  lemma EvictAtCoupled(s: Store, i: nat)
    requires CacheOk(s.cache) && Coupled(s.pool, s.cache) && i < |s.cache.lru|
    requires s.cache.lru[i] in s.cache.entries && s.cache.entries[s.cache.lru[i]].block < |s.pool.cached|
    ensures Coupled(EvictAt(s, i).pool, EvictAt(s, i).cache)
  {
    hide CacheOk, Dropped;
    var t, h := EvictAt(s, i), s.cache.lru[i];
    forall b | 0 <= b < |t.pool.cached| && t.pool.cached[b]
      ensures exists g :: g in t.cache.entries && t.cache.entries[g].block == b
    {
      assert s.pool.cached[b];
      var g :| g in s.cache.entries && s.cache.entries[g].block == b;
      assert g in t.cache.entries;
    }
  }

  // The walk from the tail: i entries are still to be looked at. Only blocks no
  // row references are released; the budget counts down once something has been.
  function EvictWalk(s: Store, i: nat, evicted: nat, n: nat, budget: int): (r: (Store, nat))
    requires StoreOk(s) && i <= |s.cache.lru|
    decreases i
  {
    if i == 0 || evicted >= n then (s, evicted)
    else
      LruEntry(s, i - 1);
      if s.pool.refs[s.cache.entries[s.cache.lru[i - 1]].block] == 0 then
        EvictAtKeeps(s, i - 1);
        if budget - 1 <= 0 then (EvictAt(s, i - 1), evicted + 1)
        else EvictWalk(EvictAt(s, i - 1), i - 1, evicted + 1, n, budget - 1)
      else if evicted > 0 then
        if budget - 1 <= 0 then (s, evicted) else EvictWalk(s, i - 1, evicted, n, budget - 1)
      else EvictWalk(s, i - 1, evicted, n, budget)
  }

  // What eviction never touches.
  ghost predicate Evicting(s: Store, t: Store) {
    && StoreOk(t)
    && t.pool == s.pool.(free := t.pool.free, cached := t.pool.cached) && s.pool.free <= t.pool.free
    && t.cache == s.cache.(entries := t.cache.entries, lru := t.cache.lru, stats := t.cache.stats)
    && (forall h :: h in t.cache.entries ==> h in s.cache.entries && t.cache.entries[h] == s.cache.entries[h])
    && (forall h :: h in s.cache.entries && h !in t.cache.entries ==>
          s.cache.entries[h].block < |s.pool.refs| && s.pool.refs[s.cache.entries[h].block] == 0)
  }

  lemma EvictingOne(s: Store, i: nat)
    requires StoreOk(s) && i < |s.cache.lru|
    requires s.cache.lru[i] in s.cache.entries && s.cache.entries[s.cache.lru[i]].block < |s.pool.refs| == |s.pool.cached|
    requires s.pool.refs[s.cache.entries[s.cache.lru[i]].block] == 0
    ensures Evicting(s, EvictAt(s, i)) && |EvictAt(s, i).pool.free| == |s.pool.free| + 1
  {
    hide PoolOk, CacheOk, Coupled, Dropped;
    EvictAtKeeps(s, i);
    LruEntry(s, i);
  }

  lemma EvictingChain(s: Store, t: Store, u: Store)
    requires Evicting(s, t) && Evicting(t, u)
    ensures Evicting(s, u)
  {
    hide StoreOk;
    forall h | h in s.cache.entries && h !in u.cache.entries
      ensures s.cache.entries[h].block < |s.pool.refs| && s.pool.refs[s.cache.entries[h].block] == 0
    {
      if h in t.cache.entries {
        assert t.cache.entries[h] == s.cache.entries[h];
      }
    }
  }

  // Every evicted entry gives one block to the free list; nothing referenced goes.
  lemma {:induction false} EvictWalkKeeps(s: Store, i: nat, evicted: nat, n: nat, budget: int)
    requires StoreOk(s) && i <= |s.cache.lru|
    ensures var (t, e) := EvictWalk(s, i, evicted, n, budget);
            && Evicting(s, t)
            && evicted <= e && (evicted <= n ==> e <= n)
            && |t.pool.free| - |s.pool.free| == e - evicted
    decreases i
  {
    hide StoreOk, PoolOk;
    if i == 0 || evicted >= n {
      EvictingSame(s);
    } else {
      LruEntry(s, i - 1);
      if s.pool.refs[s.cache.entries[s.cache.lru[i - 1]].block] == 0 {
        EvictAtKeeps(s, i - 1);
        EvictingOne(s, i - 1);
        var t := EvictAt(s, i - 1);
        if budget - 1 > 0 {
          EvictWalkKeeps(t, i - 1, evicted + 1, n, budget - 1);
          EvictingChain(s, t, EvictWalk(t, i - 1, evicted + 1, n, budget - 1).0);
        }
      } else if evicted > 0 && budget - 1 <= 0 {
        EvictingSame(s);
      } else {
        EvictWalkKeeps(s, i - 1, evicted, n, if evicted > 0 then budget - 1 else budget);
      }
    }
  }

  lemma EvictingSame(s: Store)
    requires StoreOk(s)
    ensures Evicting(s, s)
  {
    hide StoreOk;
  }

  ghost predicate Evictable(s: Store, j: nat) {
    && j < |s.cache.lru| && s.cache.lru[j] in s.cache.entries
    && s.cache.entries[s.cache.lru[j]].block < |s.pool.refs|
    && s.pool.refs[s.cache.entries[s.cache.lru[j]].block] == 0
  }

  // Among the entries that may go, the least recently used go first: whatever
  // is evictable and behind an evicted entry has been evicted too.
  lemma {:induction false} EvictWalkOldestFirst(s: Store, i: nat, evicted: nat, n: nat, budget: int, j: nat, k: nat)
    requires StoreOk(s) && i <= |s.cache.lru| && j < k < i
    requires s.cache.lru[j] !in EvictWalk(s, i, evicted, n, budget).0.cache.entries && Evictable(s, k)
    ensures s.cache.lru[k] !in EvictWalk(s, i, evicted, n, budget).0.cache.entries
    decreases i
  {
    hide StoreOk, PoolOk, CacheOk, Coupled;
    LruEntry(s, i - 1);
    LruEntry(s, j);
    assert s.cache.lru[j] != s.cache.lru[i - 1] by {
      LruDifferent(s, j, i - 1);
    }
    if evicted < n {
      if Evictable(s, i - 1) {
        EvictAtKeeps(s, i - 1);
        var t := EvictAt(s, i - 1);
        assert t.cache.lru[..i - 1][j] == s.cache.lru[j];
        if budget - 1 > 0 {
          EvictWalkKeeps(t, i - 1, evicted + 1, n, budget - 1);
          if k < i - 1 {
            assert t.cache.lru[..i - 1][k] == s.cache.lru[k];
            LruDifferent(s, k, i - 1);
            EvictWalkOldestFirst(t, i - 1, evicted + 1, n, budget - 1, j, k);
          }
        }
      } else if !(evicted > 0 && budget - 1 <= 0) {
        EvictWalkOldestFirst(s, i - 1, evicted, n, if evicted > 0 then budget - 1 else budget, j, k);
      }
    }
  }

  lemma LruDifferent(s: Store, j: nat, k: nat)
    requires StoreOk(s) && j < k < |s.cache.lru|
    ensures s.cache.lru[j] != s.cache.lru[k]
  {
    hide PoolOk, Coupled;
  }

  // The walk stops short only when it has nothing left to evict or has used up
  // its budget after evicting something: it never comes back empty-handed while
  // anything is evictable, and a list within the budget is walked to its head.
  lemma {:induction false} EvictWalkStops(s: Store, i: nat, evicted: nat, n: nat, budget: int)
    requires StoreOk(s) && i <= |s.cache.lru| && budget >= 1
    ensures var (t, e) := EvictWalk(s, i, evicted, n, budget);
            && (e == 0 && n > 0 ==> forall j :: 0 <= j < i ==> !Evictable(s, j))
            && (e < n && budget > i ==> forall j :: 0 <= j < i && Evictable(s, j) ==> s.cache.lru[j] !in t.cache.entries)
    decreases i
  {
    hide StoreOk, PoolOk, CacheOk, Coupled;
    var (r, e) := EvictWalk(s, i, evicted, n, budget);
    if i > 0 && evicted < n {
      LruEntry(s, i - 1);
      if s.pool.refs[s.cache.entries[s.cache.lru[i - 1]].block] == 0 {
        EvictAtKeeps(s, i - 1);
        var t := EvictAt(s, i - 1);
        if budget - 1 > 0 {
          EvictWalkStops(t, i - 1, evicted + 1, n, budget - 1);
          EvictWalkKeeps(t, i - 1, evicted + 1, n, budget - 1);
          if e < n && budget > i {
            forall j | 0 <= j < i && Evictable(s, j) ensures s.cache.lru[j] !in r.cache.entries {
              if j < i - 1 {
                LruDifferent(s, j, i - 1);
                assert t.cache.lru[..i - 1][j] == s.cache.lru[j];
                assert Evictable(t, j);
              }
            }
          }
        }
      } else if !(evicted > 0 && budget - 1 <= 0) {
        EvictWalkStops(s, i - 1, evicted, n, if evicted > 0 then budget - 1 else budget);
      }
    }
  }

  // How many of the `budget` entries before place i may go.
  ghost function EvictableIn(s: Store, i: nat, budget: nat): nat
    decreases i
  {
    if i == 0 || budget == 0 then 0
    else (if Evictable(s, i - 1) then 1 else 0) + EvictableIn(s, i - 1, budget - 1)
  }

  // Just past the least recently used entry before place i that may go.
  ghost function FirstEvictable(s: Store, i: nat): (k: nat)
    ensures k <= i && (k > 0 ==> Evictable(s, k - 1))
    ensures forall j :: k <= j < i ==> !Evictable(s, j)
    decreases i
  {
    if i == 0 then 0 else if Evictable(s, i - 1) then i else FirstEvictable(s, i - 1)
  }

  lemma {:induction false} EvictableAfter(s: Store, at: nat, i: nat, budget: nat)
    requires StoreOk(s) && at < |s.cache.lru| && i <= at && Evictable(s, at)
    ensures EvictableIn(EvictAt(s, at), i, budget) == EvictableIn(s, i, budget)
    decreases i
  {
    hide StoreOk;
    LruEntry(s, at);
    if i > 0 && budget > 0 {
      LruDifferent(s, i - 1, at);
      EvictAtKeeps(s, at);
      assert EvictAt(s, at).cache.lru[..at][i - 1] == s.cache.lru[i - 1];
      EvictableAfter(s, at, i - 1, budget - 1);
    }
  }

  // Once something has been evicted, the walk counts to the end of its budget.
  lemma {:induction false} WalkCounts(s: Store, i: nat, evicted: nat, n: nat, budget: nat)
    requires StoreOk(s) && i <= |s.cache.lru| && 0 < evicted <= n && budget > 0
    ensures EvictWalk(s, i, evicted, n, budget).1
         == if evicted + EvictableIn(s, i, budget) < n then evicted + EvictableIn(s, i, budget) else n
    decreases i
  {
    hide StoreOk, PoolOk, CacheOk, Coupled, EvictAt;
    if i > 0 && evicted < n {
      LruEntry(s, i - 1);
      if Evictable(s, i - 1) {
        EvictAtKeeps(s, i - 1);
        EvictableAfter(s, i - 1, i - 1, budget - 1);
        AfterEvict(s, i - 1);
        if budget > 1 {
          WalkCounts(EvictAt(s, i - 1), i - 1, evicted + 1, n, budget - 1);
        }
      } else if budget > 1 {
        WalkCounts(s, i - 1, evicted, n, budget - 1);
      }
    }
  }

  lemma AfterEvict(s: Store, i: nat)
    requires i < |s.cache.lru| && s.cache.lru[i] in s.cache.entries
    requires s.cache.entries[s.cache.lru[i]].block < |s.pool.cached|
    ensures |EvictAt(s, i).cache.lru| == |s.cache.lru| - 1
  {}

  // Before that, entries in use are passed over for nothing.
  lemma {:induction false} WalkSkips(s: Store, i: nat, n: nat, budget: nat)
    requires StoreOk(s) && i <= |s.cache.lru| && n > 0 && budget > 0
    ensures var count := EvictableIn(s, FirstEvictable(s, i), budget);
            EvictWalk(s, i, 0, n, budget).1 == if count < n then count else n
    decreases i
  {
    hide StoreOk, PoolOk, CacheOk, Coupled, EvictAt;
    if i > 0 {
      LruEntry(s, i - 1);
      if Evictable(s, i - 1) {
        EvictAtKeeps(s, i - 1);
        EvictableAfter(s, i - 1, i - 1, budget - 1);
        AfterEvict(s, i - 1);
        if budget > 1 {
          WalkCounts(EvictAt(s, i - 1), i - 1, 1, n, budget - 1);
        }
      } else {
        WalkSkips(s, i - 1, n, budget);
      }
    }
  }

  // Evicting up to n entries; falling short is counted.
  function Evict(s: Store, n: int): (r: (Store, nat))
    requires StoreOk(s)
  {
    if n <= 0 then (s, 0)
    else
      var (t, e) := EvictWalk(s, |s.cache.lru|, 0, n, EVICT_SCAN_CAP);
      (if e < n then
         t.(cache := t.cache.(stats := t.cache.stats.(evictShortfalls := t.cache.stats.evictShortfalls + 1)))
       else t,
       e)
  }

  lemma StatsDoNotMatter(s: Store, t: Store, stats: CacheStats)
    ensures StoreOk(t) <==> StoreOk(t.(cache := t.cache.(stats := stats)))
    ensures Evicting(s, t) <==> Evicting(s, t.(cache := t.cache.(stats := stats)))
  {
    hide PoolOk;
  }

  lemma EvictKeeps(s: Store, n: int)
    requires StoreOk(s)
    ensures var (t, e) := Evict(s, n);
            && Evicting(s, t) && |t.pool.free| == |s.pool.free| + e
            && (n > 0 ==> e <= n) && (n <= 0 ==> t == s)
            && (n > 0 && e == 0 ==> forall j :: 0 <= j < |s.cache.lru| ==> !Evictable(s, j))
            && (e < n && |s.cache.lru| < EVICT_SCAN_CAP ==>
                  forall j :: 0 <= j < |s.cache.lru| && Evictable(s, j) ==> s.cache.lru[j] !in t.cache.entries)
  {
    hide StoreOk, Evictable, Evicting;
    if n > 0 {
      var (t, e) := EvictWalk(s, |s.cache.lru|, 0, n, EVICT_SCAN_CAP);
      EvictWalkKeeps(s, |s.cache.lru|, 0, n, EVICT_SCAN_CAP);
      EvictWalkStops(s, |s.cache.lru|, 0, n, EVICT_SCAN_CAP);
      StatsDoNotMatter(s, t, t.cache.stats.(evictShortfalls := t.cache.stats.evictShortfalls + 1));
    } else {
      EvictingSame(s);
    }
  }

  // What a call evicts, exactly: as many as asked for of the entries that may go
  // among the 1024 from the oldest such entry on.
  lemma EvictExactly(s: Store, n: nat)
    requires StoreOk(s) && n > 0
    ensures var count := EvictableIn(s, FirstEvictable(s, |s.cache.lru|), 1024);
            Evict(s, n).1 == if count < n then count else n
  {
    hide StoreOk, EvictWalk, EvictableIn, FirstEvictable;
    WalkSkips(s, |s.cache.lru|, n, EVICT_SCAN_CAP);
  }

  // The hashes that still have an entry, in their order.
  function StillIn(lru: seq<u64>, entries: map<u64, Entry>): seq<u64> {
    if lru == [] then []
    else
      var last := lru[|lru| - 1];
      StillIn(lru[..|lru| - 1], entries) + if last in entries then [last] else []
  }

  lemma {:induction false} AllStillIn(lru: seq<u64>, entries: map<u64, Entry>)
    requires forall h :: h in lru ==> h in entries
    ensures StillIn(lru, entries) == lru
  {
    if lru != [] {
      AllStillIn(lru[..|lru| - 1], entries);
      assert lru == lru[..|lru| - 1] + [lru[|lru| - 1]];
    }
  }

  lemma {:induction false} StillInConcat(a: seq<u64>, b: seq<u64>, entries: map<u64, Entry>)
    ensures StillIn(a + b, entries) == StillIn(a, entries) + StillIn(b, entries)
    decreases |b|
  {
    if b == [] {
      assert a + b == a;
    } else {
      assert (a + b)[..|a + b| - 1] == a + b[..|b| - 1];
      StillInConcat(a, b[..|b| - 1], entries);
    }
  }

  lemma DroppedStillIn(lru: seq<u64>, i: nat, entries: map<u64, Entry>)
    requires i < |lru| && lru[i] !in entries
    ensures StillIn(Dropped(lru, i), entries) == StillIn(lru, entries)
  {
    StillInConcat(lru[..i], lru[i + 1..], entries);
    StillInConcat(lru[..i], [lru[i]], entries);
    StillInConcat(lru[..i + 1], lru[i + 1..], entries);
    assert lru[..i] + [lru[i]] == lru[..i + 1] && lru[..i + 1] + lru[i + 1..] == lru;
    assert [lru[i]][..0] == [];
  }

  // Eviction leaves the recency order of the entries that stay.
  lemma {:induction false} EvictWalkOrder(s: Store, i: nat, evicted: nat, n: nat, budget: int)
    requires StoreOk(s) && i <= |s.cache.lru|
    ensures var t := EvictWalk(s, i, evicted, n, budget).0;
            t.cache.lru == StillIn(s.cache.lru, t.cache.entries)
    decreases i
  {
    hide StoreOk, Evicting, StillIn;
    if i == 0 || evicted >= n {
      OwnOrder(s);
    } else {
      LruEntry(s, i - 1);
      if s.pool.refs[s.cache.entries[s.cache.lru[i - 1]].block] == 0 {
        var u := EvictAt(s, i - 1);
        EvictAtKeeps(s, i - 1);
        if budget - 1 <= 0 {
          OwnOrder(u);
          DroppedStillIn(s.cache.lru, i - 1, u.cache.entries);
        } else {
          var t := EvictWalk(u, i - 1, evicted + 1, n, budget - 1).0;
          EvictWalkOrder(u, i - 1, evicted + 1, n, budget - 1);
          EvictWalkKeeps(u, i - 1, evicted + 1, n, budget - 1);
          NoNewEntry(u, t, s.cache.lru[i - 1]);
          DroppedStillIn(s.cache.lru, i - 1, t.cache.entries);
        }
      } else if evicted > 0 && budget - 1 <= 0 {
        OwnOrder(s);
      } else {
        EvictWalkOrder(s, i - 1, evicted, n, if evicted > 0 then budget - 1 else budget);
      }
    }
  }

  lemma NoNewEntry(s: Store, t: Store, h: u64)
    requires Evicting(s, t) && h !in s.cache.entries
    ensures h !in t.cache.entries
  {
    hide StoreOk;
  }

  lemma OwnOrder(s: Store)
    requires StoreOk(s)
    ensures StillIn(s.cache.lru, s.cache.entries) == s.cache.lru
  {
    hide PoolOk, Coupled;
    AllStillIn(s.cache.lru, s.cache.entries);
  }

  // Free list first, cached blocks second.
  function ReclaimFor(s: Store, n: int): Store
    requires StoreOk(s)
  {
    if n <= 0 || n - |s.pool.free| <= 0 then s else Evict(s, n - |s.pool.free|).0
  }

  lemma ReclaimKeeps(s: Store, n: int)
    requires StoreOk(s)
    ensures Evicting(s, ReclaimFor(s, n))
    ensures |ReclaimFor(s, n).pool.free| <= if n > |s.pool.free| then n else |s.pool.free|
    ensures n <= |s.pool.free| ==> ReclaimFor(s, n) == s
  {
    hide StoreOk, Evictable, Evicting;
    EvictingSame(s);
    EvictKeeps(s, n - |s.pool.free|);
  }

  // ---------------------------------------------------------------- pool operations with the hook

  // The first row not in use, |busy| when there is none.
  function FirstIdle(busy: seq<bool>): (r: nat)
    ensures r <= |busy|
    ensures forall q :: 0 <= q < r ==> busy[q]
    ensures r < |busy| ==> !busy[r]
  {
    if busy == [] || !busy[0] then 0
    else
      assert forall q :: 1 <= q < |busy| ==> busy[q] == busy[1..][q - 1];
      1 + FirstIdle(busy[1..])
  }

  lemma FirstIdleIs(busy: seq<bool>, r: nat)
    requires r <= |busy| && (forall q :: 0 <= q < r ==> busy[q]) && (r < |busy| ==> !busy[r])
    ensures FirstIdle(busy) == r
  {
  }

  // A new row with n blocks; -1 when there is no row or there are too few blocks.
  function AllocateBlocks(s: Store, n: int): (r: (Store, int))
    requires StoreOk(s)
  {
    var row: nat := FirstIdle(s.pool.busy);
    if n < 0 || n > s.pool.width || row == |s.pool.busy| then (s, -1)
    else
      var t := ReclaimFor(s, n);
      ReclaimKeeps(s, n);
      if |t.pool.free| < n then (t, -1)
      else
        (t.(pool := Take(t.pool.(busy := t.pool.busy[row := true]), row, n)), row as int)
  }

  // n more blocks for a row; its new length, or -1.
  function AppendBlocks(s: Store, row: int, n: int): (r: (Store, int))
    requires StoreOk(s)
  {
    if row < 0 || row >= |s.pool.tables| || n <= 0 || |s.pool.tables[row]| + n > s.pool.width then (s, -1)
    else
      var used := |s.pool.tables[row]|;
      var t := ReclaimFor(s, n);
      ReclaimKeeps(s, n);
      if |t.pool.free| < n then (t, -1) else (t.(pool := Take(t.pool, row, n)), used + n)
  }

  lemma CoupledIgnores(p: Pool, q: Pool, c: Cache)
    requires Coupled(p, c) && q.cached == p.cached && |q.refs| == |p.refs|
    ensures Coupled(q, c)
  {}

  lemma TakeStore(s: Store, row: nat, n: nat)
    requires StoreOk(s) && row < |s.pool.tables| && s.pool.busy[row]
    requires n <= |s.pool.free| && |s.pool.tables[row]| + n <= s.pool.width
    ensures StoreOk(s.(pool := Take(s.pool, row, n)))
  {
    hide Inv, CacheOk, Coupled;
    TakeKeeps(s.pool, row, n);
    TakeFrame(s.pool, row, n);
    CoupledIgnores(s.pool, Take(s.pool, row, n), s.cache);
  }

  // Growing a row keeps everything consistent. On failure no row, no count and
  // no row ownership has changed; on success exactly the row has grown, by
  // blocks that were unreferenced and that no cache entry points at.
  lemma AppendKeeps(s: Store, row: int, n: int)
    requires StoreOk(s) && (0 <= row < |s.pool.tables| ==> s.pool.busy[row])
    ensures var (t, used) := AppendBlocks(s, row, n);
            && StoreOk(t)
            && t.pool.busy == s.pool.busy && |t.pool.refs| == |s.pool.refs| && t.pool.width == s.pool.width
            && (used < 0 ==> Evicting(s, t))
            && (used >= 0 ==> 0 <= row < |s.pool.tables| && n > 0
                              && Evicting(s, ReclaimFor(s, n)) && n <= |ReclaimFor(s, n).pool.free|
                              && used == |s.pool.tables[row]| + n
                              && t.cache == ReclaimFor(s, n).cache
                              && t.pool.cached == ReclaimFor(s, n).pool.cached
                              && t.pool.tables == s.pool.tables[row := s.pool.tables[row]
                                                                       + Popped(ReclaimFor(s, n).pool.free, n)])
  {
    hide StoreOk, Evicting;
    ReclaimKeeps(s, n);
    EvictingSame(s);
    if 0 <= row < |s.pool.tables| && n > 0 && |s.pool.tables[row]| + n <= s.pool.width {
      var u := ReclaimFor(s, n);
      EvictingPool(s, u);
      StorePool(u);
      if n <= |u.pool.free| {
        TakeStore(u, row, n);
        TakeKeeps(u.pool, row, n);
        TakeFrame(u.pool, row, n);
      }
    } else {
      EvictingPool(s, s);
    }
    EvictingPool(s, AppendBlocks(s, row, n).0);
  }

  lemma EvictingPool(s: Store, t: Store)
    ensures Evicting(s, t) ==>
              && StoreOk(t)
              && t.pool.tables == s.pool.tables && t.pool.busy == s.pool.busy && t.pool.width == s.pool.width
              && t.pool.refs == s.pool.refs && s.pool.free <= t.pool.free
  {
    hide StoreOk;
  }

  lemma StorePool(s: Store)
    requires StoreOk(s)
    ensures PoolOk(s.pool) && Shape(s.pool) && Inv(s.pool)
  {
    hide Inv;
  }

  // The same for a new row.
  lemma AllocateKeeps(s: Store, n: int)
    requires StoreOk(s)
    ensures var (t, row) := AllocateBlocks(s, n);
            && StoreOk(t)
            && (row < 0 ==> Evicting(s, t))
            && (n <= 0 ==> t.cache == s.cache && t.pool.cached == s.pool.cached && t.pool.free == s.pool.free)
            && (row >= 0 ==> row < |s.pool.tables| && 0 <= n && !s.pool.busy[row]
                             && Evicting(s, ReclaimFor(s, n)) && n <= |ReclaimFor(s, n).pool.free|
                             && t.cache == ReclaimFor(s, n).cache
                             && t.pool.cached == ReclaimFor(s, n).pool.cached
                             && t.pool.busy == s.pool.busy[row := true]
                             && t.pool.tables == s.pool.tables[row := Popped(ReclaimFor(s, n).pool.free, n)])
  {
    hide StoreOk, Evicting;
    ReclaimKeeps(s, n);
    EvictingSame(s);
    var row: nat := FirstIdle(s.pool.busy);
    StorePool(s);
    if 0 <= n <= s.pool.width && row < |s.pool.busy| {
      var u := ReclaimFor(s, n);
      EvictingPool(s, u);
      StorePool(u);
      if n <= |u.pool.free| {
        var v := u.(pool := u.pool.(busy := u.pool.busy[row := true]));
        IdleRowIsEmpty(s.pool, row);
        BusyStore(u, row);
        StorePool(v);
        TakeStore(v, row, n);
        TakeKeeps(v.pool, row, n);
        TakeFrame(v.pool, row, n);
        assert [] + Popped(u.pool.free, n) == Popped(u.pool.free, n);
      }
    } else {
      EvictingPool(s, s);
    }
  }

  lemma IdleRowIsEmpty(p: Pool, row: nat)
    requires PoolOk(p) && row < |p.busy| && !p.busy[row]
    ensures row < |p.tables| && p.tables[row] == []
  {
    hide Inv;
  }

  lemma BusyStore(s: Store, row: nat)
    requires StoreOk(s) && row < |s.pool.busy|
    ensures StoreOk(s.(pool := s.pool.(busy := s.pool.busy[row := true])))
  {
    hide Inv, CacheOk;
    InvIgnoresBusy(s.pool, s.pool.busy[row := true]);
  }

  lemma FreeStore(s: Store, row: nat, start: nat)
    requires StoreOk(s) && row < |s.pool.tables|
    ensures StoreOk(s.(pool := FreeFrom(s.pool, row, start)))
  {
    hide PoolOk, CacheOk, Coupled;
    StorePool(s);
    FreeFromKeeps(s.pool, row, start);
    CoupledIgnores(s.pool, FreeFrom(s.pool, row, start), s.cache);
  }

  lemma MountStore(s: Store, row: nat, blocks: seq<nat>)
    requires StoreOk(s) && Shape(s.pool) && Mountable(s.pool, row, blocks) && NoDup(blocks) && s.pool.busy[row]
    ensures Below(blocks, |s.pool.refs|)
    ensures StoreOk(s.(pool := Mounted(s.pool, row, blocks)))
  {
    hide Inv, CacheOk, Coupled, MountableBlock, NoDup;
    StorePool(s);
    MountKeepsIffNoDup(s.pool, row, blocks);
    CoupledIgnores(s.pool, Mounted(s.pool, row, blocks), s.cache);
  }

  // When reclaim leaves nothing evictable, every block that is not free is
  // referenced by a row.
  lemma NothingParked(s: Store, n: int)
    requires StoreOk(s)
    requires forall j :: 0 <= j < |s.cache.lru| && Evictable(s, j) ==>
               s.cache.lru[j] !in ReclaimFor(s, n).cache.entries
    ensures |ReclaimFor(s, n).pool.cached| == |ReclaimFor(s, n).pool.refs|
    ensures Parked(ReclaimFor(s, n).pool) == {}
    ensures |ReclaimFor(s, n).pool.free| + |Referenced(s.pool)| == |s.pool.refs|
  {
    hide StoreOk, Evictable, Evicting, Inv, Referenced, Parked;
    var t := ReclaimFor(s, n);
    ReclaimKeeps(s, n);
    EvictingPool(s, t);
    StorePool(t);
    if b :| b in Parked(t.pool) {
      ParkedEntry(s, t, b);
      assert false;
    }
    Conservation(t.pool);
    ReferencedSame(s.pool, t.pool);
  }

  // An allocation that is one block short - a row growing by one block, with
  // none free - fails only when every block is referenced by a row, however
  // long the recency list is.
  lemma ShortByOne(s: Store, n: nat)
    requires StoreOk(s) && n == |s.pool.free| + 1 && |ReclaimFor(s, n).pool.free| < n
    ensures |ReclaimFor(s, n).pool.cached| == |ReclaimFor(s, n).pool.refs|
    ensures Parked(ReclaimFor(s, n).pool) == {}
    ensures |ReclaimFor(s, n).pool.free| + |Referenced(s.pool)| == |s.pool.refs|
  {
    hide StoreOk, Evictable, Evicting, Inv, Referenced, Parked;
    EvictKeeps(s, 1);
    NothingParked(s, n);
  }

  // An allocation runs short exactly when the free blocks and the entries that
  // may go, among the 1024 from the oldest such entry on, are too few for it.
  lemma ShortExactly(s: Store, n: nat)
    requires StoreOk(s)
    ensures |ReclaimFor(s, n).pool.free| < n <==>
              |s.pool.free| + EvictableIn(s, FirstEvictable(s, |s.cache.lru|), 1024) < n
  {
    hide StoreOk, Evictable, Evicting, EvictableIn, FirstEvictable, Evict;
    if n > |s.pool.free| {
      EvictExactly(s, n - |s.pool.free|);
      EvictKeeps(s, n - |s.pool.free|);
    }
  }

  // Too few blocks, free or to be had by one call of the eviction, for a request.
  ghost predicate TooFew(s: Store, n: int) {
    |s.pool.free| + EvictableIn(s, FirstEvictable(s, |s.cache.lru|), 1024) < n
  }

  // When a new row is refused, and when a longer one.
  lemma RefusedExactly(s: Store, row: int, n: int)
    requires StoreOk(s)
    ensures AllocateBlocks(s, n).1 < 0 <==>
              n < 0 || n > s.pool.width || (forall q :: 0 <= q < |s.pool.busy| ==> s.pool.busy[q]) || TooFew(s, n)
    ensures AppendBlocks(s, row, n).1 < 0 <==>
              || !(0 <= row < |s.pool.tables|) || n <= 0 || |s.pool.tables[row]| + n > s.pool.width || TooFew(s, n)
  {
    hide StoreOk, EvictableIn, FirstEvictable, ReclaimFor, Take;
    if n >= 0 {
      ShortExactly(s, n);
    }
  }

  // Within the cap, too few means that nothing that may go is left.
  lemma ShortOnlyWhenInUse(s: Store, n: nat)
    requires StoreOk(s) && |s.cache.lru| < EVICT_SCAN_CAP && |ReclaimFor(s, n).pool.free| < n
    ensures |ReclaimFor(s, n).pool.cached| == |ReclaimFor(s, n).pool.refs|
    ensures Parked(ReclaimFor(s, n).pool) == {}
    ensures |ReclaimFor(s, n).pool.free| + |Referenced(s.pool)| == |s.pool.refs|
  {
    hide StoreOk, Evictable, Evicting, Inv, Referenced, Parked;
    ReclaimKeeps(s, n);
    EvictKeeps(s, n - |s.pool.free|);
    NothingParked(s, n);
  }

  lemma ParkedEntry(s: Store, t: Store, b: nat)
    requires StoreOk(s) && Evicting(s, t) && |t.pool.cached| == |t.pool.refs| && b in Parked(t.pool)
    ensures exists j :: 0 <= j < |s.cache.lru| && Evictable(s, j) && s.cache.lru[j] in t.cache.entries
  {
    hide PoolOk;
    var h :| h in t.cache.entries && t.cache.entries[h].block == b;
    assert h in s.cache.lru;
    var j :| 0 <= j < |s.cache.lru| && s.cache.lru[j] == h;
    assert Evictable(s, j);
  }

  lemma ReferencedSame(p: Pool, q: Pool)
    requires p.refs == q.refs
    ensures Referenced(p) == Referenced(q)
  {}
}
