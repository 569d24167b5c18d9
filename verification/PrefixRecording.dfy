/**
 Recording committed prompt blocks in the cache, and marking entries as used.
 */
module PrefixRecording {
  import opened Bytes
  import opened BlockPool
  import opened KvStore
  import opened PrefixMatching

  // ---------------------------------------------------------------- rows and entries

  // A pinned block in a row is pinned by the entry of its own place in the prompt.
  ghost predicate Known(s: Store, prompt: seq<int32>, row: seq<nat>, i: nat)
    requires i < |row|
  {
    row[i] < |s.pool.cached| && s.pool.cached[row[i]] ==>
      && Start(s.cache.blockSize, i + 1) <= |prompt|
      && Chain(prompt, s.cache.blockSize, i + 1) in s.cache.entries
      && s.cache.entries[Chain(prompt, s.cache.blockSize, i + 1)].block == row[i]
  }

  ghost predicate RowKnown(s: Store, prompt: seq<int32>, row: seq<nat>) {
    && NoDup(row) && Below(row, |s.pool.refs|)
    && (forall b :: b in row ==> b < |s.pool.refs| && s.pool.refs[b] > 0)
    && (forall i :: 0 <= i < |row| ==> Known(s, prompt, row, i))
  }

  // Eviction takes nothing away from a row.
  lemma EvictingKnown(s: Store, t: Store, prompt: seq<int32>, row: seq<nat>)
    requires StoreOk(s) && Evicting(s, t) && RowKnown(s, prompt, row)
    ensures RowKnown(t, prompt, row)
  {
    hide PoolOk, CacheOk, Start, Chain;
    forall i | 0 <= i < |row| ensures Known(t, prompt, row, i) {
      assert Known(s, prompt, row, i);
      if row[i] < |t.pool.cached| && t.pool.cached[row[i]] {
        StillCached(s, t, row[i]);
      }
    }
  }

  lemma StillCached(s: Store, t: Store, b: nat)
    requires StoreOk(s) && Evicting(s, t) && b < |t.pool.cached| && t.pool.cached[b]
    ensures b < |s.pool.cached| && s.pool.cached[b]
  {
    hide PoolOk, CacheOk;
    var h :| h in t.cache.entries && t.cache.entries[h].block == b;
    assert s.cache.entries[h].block == b;
  }

  // ---------------------------------------------------------------- recording one block

  function Inserted(s: Store, h: u64, e: Entry): Store
    requires e.block < |s.pool.cached|
  {
    Store(MarkCached(s.pool, e.block),
          s.cache.(entries := s.cache.entries[h := e], lru := [h] + s.cache.lru,
                   stats := s.cache.stats.(inserts := s.cache.stats.inserts + 1)))
  }

  lemma InsertedKeeps(s: Store, h: u64, e: Entry)
    requires StoreOk(s) && e.block < |s.pool.refs| == |s.pool.cached| && s.pool.refs[e.block] > 0
    requires h !in s.cache.entries && !s.pool.cached[e.block]
    ensures StoreOk(Inserted(s, h, e))
  {
    MarkCachedKeeps(s.pool, e.block);
    InsertedCacheOk(s.cache, h, e);
    InsertedCoupled(s, h, e);
  }

  lemma InsertedCacheOk(c: Cache, h: u64, e: Entry)
    requires CacheOk(c) && h !in c.entries
    ensures CacheOk(c.(entries := c.entries[h := e], lru := [h] + c.lru))
  {}

  lemma InsertedCoupled(s: Store, h: u64, e: Entry)
    requires Coupled(s.pool, s.cache) && e.block < |s.pool.cached| && h !in s.cache.entries && !s.pool.cached[e.block]
    ensures Coupled(Inserted(s, h, e).pool, Inserted(s, h, e).cache)
  {
    var t := Inserted(s, h, e);
    forall b | 0 <= b < |t.pool.cached| && t.pool.cached[b]
      ensures exists g :: g in t.cache.entries && t.cache.entries[g].block == b
    {
      InsertedHas(s, h, e, b, t.cache.entries);
    }
  }

  lemma InsertedHas(s: Store, h: u64, e: Entry, b: nat, m: map<u64, Entry>)
    requires Coupled(s.pool, s.cache) && e.block < |s.pool.cached| && h !in s.cache.entries
    requires b < |s.pool.cached| && (s.pool.cached[b] || b == e.block) && m == s.cache.entries[h := e]
    ensures exists g :: g in m && m[g].block == b
  {
    if b == e.block {
      assert h in m;
    } else {
      var g :| g in s.cache.entries && s.cache.entries[g].block == b;
      assert g in m;
    }
  }

  // Room for one more entry: the oldest one no row uses goes when the cache is full.
  function MakeRoom(s: Store): Store
    requires StoreOk(s)
  {
    if |s.cache.entries| >= s.cache.maxEntries then EvictWalk(s, |s.cache.lru|, 0, 1, EVICT_SCAN_CAP).0 else s
  }

  lemma MakeRoomKeeps(s: Store)
    requires StoreOk(s)
    ensures Evicting(s, MakeRoom(s)) && |MakeRoom(s).cache.entries| <= |s.cache.entries|
    ensures |MakeRoom(s).cache.entries| >= s.cache.maxEntries && |s.cache.entries| <= s.cache.maxEntries ==>
              forall j :: 0 <= j < |s.cache.lru| ==> !Evictable(s, j)
  {
    hide StoreOk, PoolOk, Evictable;
    EvictingSame(s);
    var (t, e) := EvictWalk(s, |s.cache.lru|, 0, 1, EVICT_SCAN_CAP);
    EvictWalkKeeps(s, |s.cache.lru|, 0, 1, EVICT_SCAN_CAP);
    EvictWalkStops(s, |s.cache.lru|, 0, 1, EVICT_SCAN_CAP);
    EntriesShrink(s.cache.entries, MakeRoom(s).cache.entries);
    if |t.cache.entries| >= |s.cache.entries| && e > 0 {
      EntriesSame(s, t);
      assert false;
    }
  }

  lemma EntriesShrink(m: map<u64, Entry>, n: map<u64, Entry>)
    requires forall h :: h in n ==> h in m && n[h] == m[h]
    ensures |n| <= |m|
    ensures |n| == |m| ==> n == m
  {
    assert n.Keys <= m.Keys;
    SubsetSize(n.Keys, m.Keys);
    assert |n| == |n.Keys| && |m| == |m.Keys|;
  }

  lemma SubsetSize(a: set<u64>, b: set<u64>)
    requires a <= b
    ensures |a| <= |b|
    ensures |a| == |b| ==> a == b
  {
    assert b == a + (b - a);
    assert |b| == |a| + |b - a|;
  }

  // As many entries as pinned blocks: when a block went, so did an entry.
  lemma EntriesSame(s: Store, t: Store)
    requires StoreOk(s) && Evicting(s, t) && |t.cache.entries| >= |s.cache.entries|
    ensures |t.pool.free| == |s.pool.free|
  {
    hide CacheOk, Inv;
    EntriesShrink(s.cache.entries, t.cache.entries);
    assert s.cache.entries == t.cache.entries;
    forall b | 0 <= b < |s.pool.cached| ensures t.pool.cached[b] == s.pool.cached[b] {
      if s.pool.cached[b] {
        var h :| h in s.cache.entries && s.cache.entries[h].block == b;
        assert t.pool.cached[b];
      }
      if t.pool.cached[b] {
        StillCached(s, t, b);
      }
    }
    assert t.pool.cached == s.pool.cached;
    SameFree(s.pool, t.pool);
  }

  lemma SameFree(p: Pool, q: Pool)
    requires PoolOk(p) && PoolOk(q) && q == p.(free := q.free)
    ensures |q.free| == |p.free|
  {
    forall b: nat ensures b in p.free <==> b in q.free {
      if b < |p.refs| {
        assert Accounted(p, b) && Accounted(q, b);
      }
      assert Below(p.free, |p.refs|) && Below(q.free, |p.refs|);
    }
    NoDupSize(p.free);
    NoDupSize(q.free);
    assert Elements(p.free) == Elements(q.free);
  }

  function EntryFor(prompt: seq<int32>, size: nat, b: nat, block: nat): Entry
    requires Start(size, b + 1) <= |prompt|
  {
    Entry(Chain(prompt, size, b), block, BlockOf(prompt, size, b))
  }

  // Block b of the prompt, which the row keeps in `row[b]`, becomes shareable
  // unless an entry with its hash is there already or the cache is full.
  function Record(s: Store, prompt: seq<int32>, row: seq<nat>, b: nat): Store
    requires StoreOk(s) && RowKnown(s, prompt, row)
    requires b < |row| && Start(s.cache.blockSize, b + 1) <= |prompt|
  {
    var h := Chain(prompt, s.cache.blockSize, b + 1);
    if h in s.cache.entries then s
    else
      var t := MakeRoom(s);
      RecordReady(s, prompt, row, b);
      if |t.cache.entries| >= 2 * s.cache.maxEntries then t
      else Inserted(t, h, EntryFor(prompt, s.cache.blockSize, b, row[b]))
  }

  lemma RecordReady(s: Store, prompt: seq<int32>, row: seq<nat>, b: nat)
    requires StoreOk(s) && RowKnown(s, prompt, row)
    requires b < |row| && Start(s.cache.blockSize, b + 1) <= |prompt|
    requires Chain(prompt, s.cache.blockSize, b + 1) !in s.cache.entries
    ensures var t := MakeRoom(s);
            && Evicting(s, t) && StoreOk(t) && RowKnown(t, prompt, row)
            && Chain(prompt, s.cache.blockSize, b + 1) !in t.cache.entries
            && row[b] < |t.pool.refs| == |t.pool.cached| && t.pool.refs[row[b]] > 0 && !t.pool.cached[row[b]]
  {
    hide PoolOk, CacheOk, Start, Chain, NoDup, Coupled;
    var t := MakeRoom(s);
    MakeRoomKeeps(s);
    EvictingKnown(s, t, prompt, row);
    assert row[b] in row;
    StoreSizes(t);
    assert Known(t, prompt, row, b);
  }

  lemma StoreSizes(s: Store)
    requires StoreOk(s)
    ensures |s.pool.cached| == |s.pool.refs|
  {
    hide PoolOk, CacheOk;
  }

  // What recording does to pool and cache.
  ghost predicate Recording(s: Store, t: Store, prompt: seq<int32>, row: seq<nat>, b: nat)
    requires b < |row| && Start(s.cache.blockSize, b + 1) <= |prompt|
  {
    exists u :: Evicting(s, u) && StoreOk(u)
      && (t == u || (row[b] < |u.pool.refs| == |u.pool.cached| && !u.pool.cached[row[b]] && u.pool.refs[row[b]] > 0
                     && Chain(prompt, s.cache.blockSize, b + 1) !in u.cache.entries
                     && t == Inserted(u, Chain(prompt, s.cache.blockSize, b + 1),
                                      EntryFor(prompt, s.cache.blockSize, b, row[b]))))
  }

  // The cache outgrows its capacity only while every entry is in use, and never
  // beyond twice the capacity.
  lemma RecordKeeps(s: Store, prompt: seq<int32>, row: seq<nat>, b: nat)
    requires StoreOk(s) && RowKnown(s, prompt, row)
    requires b < |row| && Start(s.cache.blockSize, b + 1) <= |prompt|
    ensures var t := Record(s, prompt, row, b);
            && StoreOk(t) && RowKnown(t, prompt, row) && Recording(s, t, prompt, row, b)
            && (|s.cache.entries| <= 2 * s.cache.maxEntries ==> |t.cache.entries| <= 2 * s.cache.maxEntries)
            && (|s.cache.entries| <= s.cache.maxEntries < |t.cache.entries| ==>
                  forall j :: 0 <= j < |s.cache.lru| ==> !Evictable(s, j))
  {
    hide PoolOk, Start, Chain, NoDup, Coupled, Evictable, CacheOk, BlockOf;
    var size := s.cache.blockSize;
    var h := Chain(prompt, size, b + 1);
    EvictingSame(s);
    if h in s.cache.entries {
      assert Evicting(s, s);
    } else {
      var u := MakeRoom(s);
      MakeRoomKeeps(s);
      RecordReady(s, prompt, row, b);
      if |u.cache.entries| < 2 * s.cache.maxEntries {
        var e := EntryFor(prompt, size, b, row[b]);
        InsertedKeeps(u, h, e);
        InsertedKnown(u, prompt, row, b);
        assert |u.cache.entries[h := e]| == |u.cache.entries| + 1;
      }
    }
  }

  // Entry j is the least recently used one that may go.
  ghost predicate OldestEvictable(s: Store, j: nat) {
    Evictable(s, j) && forall k :: j < k < |s.cache.lru| ==> !Evictable(s, k)
  }

  lemma {:induction false} WalkTakesOldest(s: Store, i: nat, j: nat)
    requires StoreOk(s) && j < i <= |s.cache.lru| && Evictable(s, j) && forall k :: j < k < i ==> !Evictable(s, k)
    ensures s.cache.lru[j] in s.cache.entries && s.cache.entries[s.cache.lru[j]].block < |s.pool.cached|
    ensures EvictWalk(s, i, 0, 1, EVICT_SCAN_CAP).0 == EvictAt(s, j)
    decreases i
  {
    hide StoreOk;
    LruEntry(s, j);
    LruEntry(s, i - 1);
    EvictAtKeeps(s, j);
    if j < i - 1 {
      assert !Evictable(s, i - 1);
      WalkTakesOldest(s, i - 1, j);
    }
  }

  lemma {:induction false} WalkTakesNone(s: Store, i: nat)
    requires StoreOk(s) && i <= |s.cache.lru| && forall k :: 0 <= k < i ==> !Evictable(s, k)
    ensures EvictWalk(s, i, 0, 1, EVICT_SCAN_CAP).0 == s
    decreases i
  {
    hide StoreOk;
    if i > 0 {
      LruEntry(s, i - 1);
      assert !Evictable(s, i - 1);
      WalkTakesNone(s, i - 1);
    }
  }

  // What making room leaves: everything while there is room or all entries are
  // in use, everything but the oldest evictable entry otherwise.
  lemma MakeRoomExactly(s: Store)
    requires StoreOk(s)
    ensures |s.cache.entries| < s.cache.maxEntries ==> MakeRoom(s) == s
    ensures (forall j :: 0 <= j < |s.cache.lru| ==> !Evictable(s, j)) ==> MakeRoom(s) == s
    ensures forall j: nat :: |s.cache.entries| >= s.cache.maxEntries && OldestEvictable(s, j) ==>
              MakeRoom(s).cache.entries == s.cache.entries - {s.cache.lru[j]}
              && MakeRoom(s).cache.lru == s.cache.lru[..j] + s.cache.lru[j + 1..]
              && MakeRoom(s).pool.free == s.pool.free + [s.cache.entries[s.cache.lru[j]].block]
  {
    hide StoreOk;
    if forall j :: 0 <= j < |s.cache.lru| ==> !Evictable(s, j) {
      WalkTakesNone(s, |s.cache.lru|);
    }
    forall j: nat | |s.cache.entries| >= s.cache.maxEntries && OldestEvictable(s, j)
      ensures MakeRoom(s).cache.entries == s.cache.entries - {s.cache.lru[j]}
      ensures MakeRoom(s).cache.lru == s.cache.lru[..j] + s.cache.lru[j + 1..]
      ensures MakeRoom(s).pool.free == s.pool.free + [s.cache.entries[s.cache.lru[j]].block]
    {
      LruEntry(s, j);
      WalkTakesOldest(s, |s.cache.lru|, j);
      EvictAtKeeps(s, j);
    }
  }

  // Offering a block makes its entry, as the most recent one, exactly when its
  // hash has none and the cache, after making room, is below twice its capacity.
  // Everything else stays as making room left it.
  lemma RecordExactly(s: Store, prompt: seq<int32>, row: seq<nat>, b: nat)
    requires StoreOk(s) && RowKnown(s, prompt, row)
    requires b < |row| && Start(s.cache.blockSize, b + 1) <= |prompt|
    ensures var size, t, u := s.cache.blockSize, Record(s, prompt, row, b), MakeRoom(s);
            var h, full := Chain(prompt, size, b + 1), |MakeRoom(s).cache.entries| >= 2 * s.cache.maxEntries;
            && Start(size, b) <= Start(size, b + 1)
            && (h in s.cache.entries ==> t == s)
            && (h !in s.cache.entries && full ==> t == u)
            && (h !in s.cache.entries && !full ==>
                  && t.cache.entries == u.cache.entries[h := Entry(Chain(prompt, size, b), row[b],
                                                                  prompt[Start(size, b)..Start(size, b + 1)])]
                  && t.cache.lru == [h] + u.cache.lru
                  && row[b] < |u.pool.cached| && t.pool == u.pool.(cached := u.pool.cached[row[b] := true]))
  {
    hide StoreOk, RowKnown, MakeRoom, Start, Chain;
    StartUpTo(s.cache.blockSize, b, b + 1);
    if Chain(prompt, s.cache.blockSize, b + 1) !in s.cache.entries {
      RecordReady(s, prompt, row, b);
    }
  }

  // A block that was recorded is a hit from then on.
  lemma RecordedIsHit(s: Store, prompt: seq<int32>, row: seq<nat>, b: nat)
    requires StoreOk(s) && RowKnown(s, prompt, row)
    requires b < |row| && Start(s.cache.blockSize, b + 1) <= |prompt|
    requires Chain(prompt, s.cache.blockSize, b + 1) !in s.cache.entries
    requires |MakeRoom(s).cache.entries| < 2 * s.cache.maxEntries
    ensures Record(s, prompt, row, b).cache.blockSize == s.cache.blockSize && Hit(Record(s, prompt, row, b), prompt, b)
  {
    hide StoreOk, RowKnown, MakeRoom, Start, Chain, Evicting;
    RecordReady(s, prompt, row, b);
    RecordExactly(s, prompt, row, b);
    RecordKeeps(s, prompt, row, b);
    RecordingFrame(s, Record(s, prompt, row, b), prompt, row, b);
  }

  lemma InsertedKnown(u: Store, prompt: seq<int32>, row: seq<nat>, b: nat)
    requires RowKnown(u, prompt, row) && b < |row| && Start(u.cache.blockSize, b + 1) <= |prompt|
    requires row[b] < |u.pool.cached| && Chain(prompt, u.cache.blockSize, b + 1) !in u.cache.entries
    ensures RowKnown(Inserted(u, Chain(prompt, u.cache.blockSize, b + 1), EntryFor(prompt, u.cache.blockSize, b, row[b])),
                     prompt, row)
  {
    hide Start, Chain, BlockOf;
    var t := Inserted(u, Chain(prompt, u.cache.blockSize, b + 1), EntryFor(prompt, u.cache.blockSize, b, row[b]));
    forall i | 0 <= i < |row| ensures Known(t, prompt, row, i) {
      assert Known(u, prompt, row, i);
      assert row[i] == row[b] ==> i == b;
    }
  }

  // A row that does not hold the recorded block, or a block that was pinned
  // before, is none the wiser.
  lemma RecordingOthers(s: Store, t: Store, prompt: seq<int32>, row: seq<nat>, b: nat,
                        prompt1: seq<int32>, row1: seq<nat>)
    requires b < |row| && Start(s.cache.blockSize, b + 1) <= |prompt|
    requires StoreOk(s) && Recording(s, t, prompt, row, b) && RowKnown(s, prompt1, row1)
    requires row[b] !in row1
    ensures RowKnown(t, prompt1, row1)
  {
    hide StoreOk, Start, Chain, BlockOf, Evicting, RowKnown;
    var h, e := Chain(prompt, s.cache.blockSize, b + 1), EntryFor(prompt, s.cache.blockSize, b, row[b]);
    var u :| Evicting(s, u) && StoreOk(u) && (t == u || (row[b] < |u.pool.refs| == |u.pool.cached|
              && !u.pool.cached[row[b]] && h !in u.cache.entries && t == Inserted(u, h, e)));
    EvictingKnown(s, u, prompt1, row1);
    if t != u {
      InsertedOthers(u, h, e, prompt1, row1);
    }
  }

  lemma InsertedOthers(u: Store, h: u64, e: Entry, prompt1: seq<int32>, row1: seq<nat>)
    requires e.block < |u.pool.cached| && h !in u.cache.entries && RowKnown(u, prompt1, row1) && e.block !in row1
    ensures RowKnown(Inserted(u, h, e), prompt1, row1)
  {
    hide Start, Chain;
    var t := Inserted(u, h, e);
    forall i | 0 <= i < |row1| ensures Known(t, prompt1, row1, i) {
      assert Known(u, prompt1, row1, i);
      assert row1[i] in row1;
    }
  }

  // At most this entry is there that was not there before.
  ghost predicate OnlyNew(c: Cache, c1: Cache, h: u64, e: Entry) {
    forall g :: g in c1.entries ==> (g in c.entries && c1.entries[g] == c.entries[g]) || (g == h && c1.entries[g] == e)
  }

  // Rows, counts and ownership stay as they are; at most one block is newly
  // pinned, for the entry that was made.
  lemma RecordingFrame(s: Store, t: Store, prompt: seq<int32>, row: seq<nat>, b: nat)
    requires b < |row| && Start(s.cache.blockSize, b + 1) <= |prompt|
    requires StoreOk(s) && Recording(s, t, prompt, row, b)
    ensures t.pool == s.pool.(free := t.pool.free, cached := t.pool.cached) && |t.pool.cached| == |s.pool.cached|
    ensures t.cache.blockSize == s.cache.blockSize && t.cache.maxEntries == s.cache.maxEntries
    ensures forall c :: 0 <= c < |t.pool.cached| && t.pool.cached[c] ==> s.pool.cached[c] || c == row[b]
    ensures OnlyNew(s.cache, t.cache, Chain(prompt, s.cache.blockSize, b + 1),
                    EntryFor(prompt, s.cache.blockSize, b, row[b]))
    ensures forall c :: 0 <= c < |s.pool.refs| == |s.pool.cached| && s.pool.cached[c] && s.pool.refs[c] > 0 ==>
              c < |t.pool.cached| && t.pool.cached[c]
  {
    hide StoreOk, Start, Chain, BlockOf, Evicting;
    var h, e := Chain(prompt, s.cache.blockSize, b + 1), EntryFor(prompt, s.cache.blockSize, b, row[b]);
    var u :| Evicting(s, u) && StoreOk(u) && (t == u || (row[b] < |u.pool.refs| == |u.pool.cached|
              && !u.pool.cached[row[b]] && h !in u.cache.entries && t == Inserted(u, h, e)));
    EvictingFrame(s, u);
    if t != u {
      assert t == Inserted(u, h, e);
      assert t.pool == MarkCached(u.pool, e.block);
      assert u.pool == s.pool.(free := u.pool.free, cached := u.pool.cached);
    }
  }

  lemma EvictingFrame(s: Store, u: Store)
    requires StoreOk(s) && Evicting(s, u)
    ensures u.pool == s.pool.(free := u.pool.free, cached := u.pool.cached) && |u.pool.cached| == |s.pool.cached|
    ensures u.cache.blockSize == s.cache.blockSize && u.cache.maxEntries == s.cache.maxEntries
    ensures forall c :: 0 <= c < |u.pool.cached| && u.pool.cached[c] ==> s.pool.cached[c]
    ensures forall g :: g in u.cache.entries ==> g in s.cache.entries && u.cache.entries[g] == s.cache.entries[g]
    ensures forall c :: 0 <= c < |s.pool.refs| == |s.pool.cached| && s.pool.cached[c] && s.pool.refs[c] > 0 ==>
              c < |u.pool.cached| && u.pool.cached[c]
  {
    StoreSizes(s);
    StoreSizes(u);
    hide StoreOk;
    forall c | 0 <= c < |u.pool.cached| && u.pool.cached[c] ensures s.pool.cached[c] {
      StillCached(s, u, c);
    }
    forall c | 0 <= c < |s.pool.refs| && s.pool.cached[c] && s.pool.refs[c] > 0 ensures u.pool.cached[c] {
      StaysCached(s, u, c);
    }
  }

  lemma StaysCached(s: Store, t: Store, b: nat)
    requires StoreOk(s) && Evicting(s, t) && b < |s.pool.refs| == |s.pool.cached| && s.pool.cached[b] && s.pool.refs[b] > 0
    ensures b < |t.pool.cached| && t.pool.cached[b]
  {
    hide PoolOk, CacheOk;
    var h :| h in s.cache.entries && s.cache.entries[h].block == b;
    assert h in t.cache.entries;
  }

  // ---------------------------------------------------------------- recording a prompt

  // Blocks [b, limit) one after the other.
  function RecordFrom(s: Store, prompt: seq<int32>, row: seq<nat>, b: nat, limit: nat): Store
    requires StoreOk(s) && RowKnown(s, prompt, row)
    requires b <= limit <= |row| && Start(s.cache.blockSize, limit) <= |prompt|
    decreases limit - b
  {
    if b == limit then s
    else
      StartUpTo(s.cache.blockSize, b + 1, limit);
      RecordKeeps(s, prompt, row, b);
      RecordingFrame(s, Record(s, prompt, row, b), prompt, row, b);
      RecordFrom(Record(s, prompt, row, b), prompt, row, b + 1, limit)
  }

  // ---------------------------------------------------------------- recency

  function IndexOf(s: seq<u64>, h: u64): (i: nat)
    requires h in s
    ensures i < |s| && s[i] == h
  {
    if s[0] == h then 0 else 1 + IndexOf(s[1..], h)
  }

  // The entry moves to the front.
  function Touched(lru: seq<u64>, h: u64): seq<u64> {
    if h !in lru then lru else [h] + Dropped(lru, IndexOf(lru, h))
  }

  lemma TouchedKeeps(lru: seq<u64>, h: u64)
    requires Different(lru)
    ensures Different(Touched(lru, h)) && |Touched(lru, h)| == |lru|
    ensures forall g :: g in Touched(lru, h) <==> g in lru
    ensures h in lru ==> Touched(lru, h)[0] == h
  {
    if h in lru {
      var i := IndexOf(lru, h);
      DroppedOne(lru, i);
      hide Dropped, Different;
      DifferentFront(h, Dropped(lru, i));
    }
  }

  lemma DifferentFront(h: u64, t: seq<u64>)
    requires Different(t) && h !in t
    ensures Different([h] + t)
  {}


  function TouchAll(lru: seq<u64>, hashes: seq<u64>): seq<u64>
    decreases |hashes|
  {
    if hashes == [] then lru else TouchAll(Touched(lru, hashes[0]), hashes[1..])
  }

  lemma {:induction false} TouchAllKeeps(lru: seq<u64>, hashes: seq<u64>)
    requires Different(lru)
    ensures Different(TouchAll(lru, hashes)) && |TouchAll(lru, hashes)| == |lru|
    ensures forall g :: g in TouchAll(lru, hashes) <==> g in lru
    decreases |hashes|
  {
    hide Touched, Different;
    if hashes != [] {
      TouchedKeeps(lru, hashes[0]);
      TouchAllKeeps(Touched(lru, hashes[0]), hashes[1..]);
    }
  }

  // Touching h puts it in front and leaves the others in their order.
  lemma TouchedOrder(lru: seq<u64>, h: u64)
    requires Different(lru) && h in lru
    ensures exists i :: 0 <= i < |lru| && lru[i] == h && Touched(lru, h) == [h] + lru[..i] + lru[i + 1..]
  {
    var i := IndexOf(lru, h);
    assert [h] + (lru[..i] + lru[i + 1..]) == [h] + lru[..i] + lru[i + 1..];
  }

  // The hashes are touched one after the other, so the last one ends in front.
  lemma {:induction false} TouchedLast(lru: seq<u64>, hashes: seq<u64>, h: u64)
    ensures TouchAll(lru, hashes + [h]) == Touched(TouchAll(lru, hashes), h)
    decreases |hashes|
  {
    hide Touched;
    if hashes == [] {
      assert [h][1..] == [];
      assert [] + [h] == [h];
      assert TouchAll(Touched(lru, h), []) == Touched(lru, h);
    } else {
      assert (hashes + [h])[1..] == hashes[1..] + [h];
      TouchedLast(Touched(lru, hashes[0]), hashes[1..], h);
    }
  }

  // An admission that mounted these blocks: its entries become the most recent.
  function CommitMounted(c: Cache, hashes: seq<u64>): Cache {
    c.(lru := TouchAll(c.lru, hashes),
       stats := c.stats.(lookups := c.stats.lookups + 1,
                         hits := c.stats.hits + if hashes == [] then 0 else 1,
                         matchedBlocks := c.stats.matchedBlocks + |hashes|))
  }

  lemma CommitStore(s: Store, hashes: seq<u64>)
    requires StoreOk(s)
    ensures StoreOk(s.(cache := CommitMounted(s.cache, hashes)))
  {
    hide PoolOk, TouchAll;
    TouchAllKeeps(s.cache.lru, hashes);
  }
}
