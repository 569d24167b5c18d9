/**
 The block allocator and the prefix cache as objects that update their fields
 in place. Each method is specified by the operations on values.
 */
module KvClasses {
  import opened Bytes
  import opened BlockPool
  import opened KvStore
  import opened PrefixMatching
  import opened PrefixRecording
  import Fnv

  lemma TakeStops(p: Pool, r: nat, n: nat)
    requires Shape(p) && r < |p.tables| && n > 0 && p.free != [] && p.free[|p.free| - 1] < |p.refs|
    requires |p.tables[r]| < p.width
    ensures Take(p, r, n) == Take(TakeOne(p, r), r, n - 1)
  {}

  lemma DropsFirst(p: Pool, r: nat, start: nat)
    requires Shape(p) && Inv(p) && r < |p.tables| && start < |p.tables[r]|
    ensures p.tables[r][start] < |p.refs| && p.refs[p.tables[r][start]] > 0
    ensures DropFrom(p, r, start) == DropFrom(DropEntry(p, r, start), r, start)
    ensures Shape(DropEntry(p, r, start)) && Inv(DropEntry(p, r, start))
    ensures |DropEntry(p, r, start).tables[r]| == |p.tables[r]| - 1
  {
    hide Inv, Without;
    DropEntryKeeps(p, r, start);
    WithoutLength(p.tables[r], start);
  }

  class BlockAllocator {
    var free: seq<nat>
    var refs: seq<nat>
    var cached: seq<bool>
    var tables: seq<seq<nat>>
    var busy: seq<bool>
    const width: nat

    function View(): Pool
      reads this
    {
      Pool(free, refs, cached, tables, busy, width)
    }

    constructor (blocks: nat, rows: nat, width: nat)
      ensures View() == Fresh(blocks, rows, width)
    {
      this.width := width;
      refs := seq(blocks, i => 0);
      cached := seq(blocks, i => false);
      tables := seq(rows, i => []);
      busy := seq(rows, i => false);
      var list: seq<nat> := seq(blocks, i => 0);
      for i := 0 to blocks
        invariant |list| == blocks
        invariant forall k :: blocks - i <= k < blocks ==> list[k] == blocks - 1 - k
      {
        list := list[blocks - 1 - i := i];
      }
      free := list;
      new;
      assert free == Fresh(blocks, rows, width).free;
    }

    // The hook: makes up for a short free list by evicting cache entries.
    method ReclaimBlocks(n: int, hook: PrefixCache)
      requires StoreOk(Store(View(), hook.View()))
      modifies this, hook
      ensures Store(View(), hook.View()) == ReclaimFor(old(Store(View(), hook.View())), n)
    {
      hide StoreOk, EvictWalk;
      if n <= 0 {
        return;
      }
      var shortBy := n - |free|;
      if shortBy <= 0 {
        return;
      }
      var got := hook.Evict(shortBy, this);
    }

    // Pops n blocks for a row; both checks on each block always hold.
    method TakeBlocks(row: nat, n: nat)
      requires Shape(View()) && Inv(View()) && row < |tables| && n <= |free| && |tables[row]| + n <= width
      modifies this
      ensures View() == Take(old(View()), row, n)
    {
      hide Inv, TakeOne, Take;
      ghost var p := View();
      for i := 0 to n
        invariant Shape(View()) && Inv(View()) && row < |tables| && n - i <= |free| && |tables[row]| + (n - i) <= width
        invariant Take(View(), row, n - i) == Take(p, row, n)
      {
        ghost var q := View();
        TakeOneKeeps(q, row);
        TakeStops(q, row, n - i);
        var block := free[|free| - 1];
        free := free[..|free| - 1];
        assert refs[block] == 0 && !cached[block];
        refs := refs[block := 1];
        tables := tables[row := tables[row] + [block]];
        IsTakeOne(q, View(), row);
      }
      TakeNone(View(), row);
    }

    method AllocateBlocks(n: int, hook: PrefixCache) returns (row: int)
      requires StoreOk(Store(View(), hook.View()))
      modifies this, hook
      ensures (Store(View(), hook.View()), row) == KvStore.AllocateBlocks(old(Store(View(), hook.View())), n)
    {
      hide StoreOk, Inv, Take, ReclaimFor, Evicting;
      ghost var s := Store(View(), hook.View());
      if n < 0 {
        return -1;
      }
      if n > width {
        return -1;
      }
      row := 0;
      while row < |busy| && busy[row]
        invariant 0 <= row <= |busy|
        invariant forall q :: 0 <= q < row ==> busy[q]
        invariant Store(View(), hook.View()) == s
      {
        row := row + 1;
      }
      FirstIdleIs(busy, row);
      if row == |busy| {
        return -1;
      }
      ReclaimBlocks(n, hook);
      ReclaimKeeps(s, n);
      EvictingPool(s, Store(View(), hook.View()));
      if |free| < n {
        return -1;
      }
      StorePool(Store(View(), hook.View()));
      IdleRowIsEmpty(View(), row);
      InvIgnoresBusy(View(), busy[row := true]);
      busy := busy[row := true];
      TakeBlocks(row, n);
    }

    method AppendBlocks(row: int, n: int, hook: PrefixCache) returns (used: int)
      requires StoreOk(Store(View(), hook.View()))
      modifies this, hook
      ensures (Store(View(), hook.View()), used) == KvStore.AppendBlocks(old(Store(View(), hook.View())), row, n)
    {
      hide StoreOk, Inv, Take, ReclaimFor, Evicting;
      ghost var s := Store(View(), hook.View());
      if row < 0 || row >= |tables| || n <= 0 {
        return -1;
      }
      used := |tables[row]|;
      if used + n > width {
        return -1;
      }
      ReclaimBlocks(n, hook);
      ReclaimKeeps(s, n);
      EvictingPool(s, Store(View(), hook.View()));
      if |free| < n {
        return -1;
      }
      StorePool(Store(View(), hook.View()));
      TakeBlocks(row, n);
      used := used + n;
    }

    // Nothing changes unless every block can be mounted.
    method ReserveSharedPrefix(row: int, blocks: seq<int>) returns (ok: bool)
      requires Shape(View())
      modifies this
      ensures ok <==> row >= 0 && Mountable(old(View()), row, blocks)
      ensures !ok ==> View() == old(View())
      ensures ok ==> Below(blocks, |old(refs)|) && View() == Mounted(old(View()), row, blocks)
    {
      if row < 0 || row >= |tables| || blocks == [] {
        return false;
      }
      if |tables[row]| + |blocks| > width {
        return false;
      }
      for i := 0 to |blocks|
        invariant View() == old(View())
        invariant forall k :: 0 <= k < i ==> MountableBlock(View(), row, blocks[k])
      {
        var good := CheckMountable(row, blocks[i]);
        if !good {
          return false;
        }
      }
      var shared: seq<nat> := ToNats(blocks);
      tables := tables[row := shared + tables[row]];
      var more := IncreaseAll(refs, shared);
      refs := more;
      ok := true;
    }

    // In range, held by someone or by the cache, and not yet in the row.
    method CheckMountable(row: nat, b: int) returns (good: bool)
      requires Shape(View()) && row < |tables|
      ensures good <==> MountableBlock(View(), row, b)
    {
      if b < 0 || b >= |refs| {
        return false;
      }
      if refs[b] == 0 && !cached[b] {
        return false;
      }
      for j := 0 to |tables[row]|
        invariant forall k :: 0 <= k < j ==> tables[row][k] != b
      {
        if tables[row][j] == b {
          return false;
        }
      }
      return true;
    }

    // Entries from `start` on are released; a row left empty is given up.
    method FreeBlocksFrom(row: int, start: int)
      requires PoolOk(View())
      modifies this
      ensures View() == if 0 <= row < |old(tables)|
                        then FreeFrom(old(View()), row, if start < 0 then 0 else start) else old(View())
    {
      hide Inv, DropFrom, Without, DropEntry;
      if row < 0 || row >= |tables| {
        return;
      }
      var from: nat := if start < 0 then 0 else start;
      ghost var p := View();
      StaysInTable(p);
      while from < |tables[row]|
        invariant Shape(View()) && Inv(View()) && row < |tables|
        invariant DropFrom(View(), row, from) == DropFrom(p, row, from)
        decreases |tables[row]|
      {
        ghost var q := View();
        DropsFirst(q, row, from);
        var block := tables[row][from];
        tables := tables[row := Without(tables[row], from)];
        refs := refs[block := refs[block] - 1];
        if refs[block] == 0 {
          ReleaseBlock(block);
        }
        IsDropEntry(q, View(), row, from);
      }
      DropNothing(View(), row, from);
      if tables[row] == [] {
        busy := busy[row := false];
      }
    }

    // The last reference is gone: parked for the cache, or free again.
    method ReleaseBlock(block: nat)
      requires block < |cached|
      modifies this
      ensures View() == old(View()).(free := if old(cached)[block] then old(free) else old(free) + [block])
    {
      if cached[block] {
        return;
      }
      free := free + [block];
    }

    method FreeAll(row: int)
      requires PoolOk(View())
      modifies this
      ensures View() == if 0 <= row < |old(tables)| then FreeFrom(old(View()), row, 0) else old(View())
    {
      FreeBlocksFrom(row, 0);
    }

    // Exactly what cutting the row at `start` would give back to the free list.
    method ReclaimableBlocksFrom(row: int, start: int) returns (n: nat)
      requires PoolOk(View())
      ensures !(0 <= row < |tables|) ==> n == 0
      ensures 0 <= row < |tables| ==>
                n == |FreeFrom(View(), row, if start < 0 then 0 else start).free| - |free|
    {
      if row < 0 || row >= |tables| {
        return 0;
      }
      var from: nat := if start < 0 then 0 else start;
      FreeFromKeeps(View(), row, from);
      hide PoolOk, FreeFrom;
      n := 0;
      if from >= |tables[row]| {
        CutNothing(View(), row, from);
        return;
      }
      var i := from;
      ghost var rest := tables[row][from..];
      while i < |tables[row]|
        invariant from <= i <= |tables[row]| && rest == tables[row][i..]
        invariant Below(rest, |refs|)
        invariant n + Reclaimable(View(), rest) == Reclaimable(View(), tables[row][from..])
      {
        var b := tables[row][i];
        assert rest[0] == b;
        ReclaimableOne(View(), rest);
        if refs[b] == 1 && !cached[b] {
          n := n + 1;
        }
        rest := rest[1..];
        i := i + 1;
      }
      ReclaimableNone(View(), rest);
    }

    method MarkCachedBlock(block: nat)
      requires block < |refs| == |cached| && refs[block] > 0
      modifies this
      ensures View() == MarkCached(old(View()), block)
    {
      cached := cached[block := true];
    }

    method EvictCachedBlock(block: nat)
      requires block < |refs| == |cached| && refs[block] == 0
      modifies this
      ensures View() == EvictCached(old(View()), block)
    {
      if !cached[block] {
        return;
      }
      cached := cached[block := false];
      free := free + [block];
    }
  }

  lemma IsTakeOne(p: Pool, q: Pool, r: nat)
    requires p.free != [] && r < |p.tables| && p.free[|p.free| - 1] < |p.refs|
    requires q == p.(free := p.free[..|p.free| - 1], refs := p.refs[p.free[|p.free| - 1] := 1],
                     tables := p.tables[r := p.tables[r] + [p.free[|p.free| - 1]]])
    ensures q == TakeOne(p, r)
  {}

  lemma TakeNone(p: Pool, r: nat)
    requires Shape(p) && r < |p.tables|
    ensures Take(p, r, 0) == p
  {}

  lemma StaysInTable(p: Pool)
    requires PoolOk(p)
    ensures Shape(p) && Inv(p)
  {}

  lemma IsDropEntry(p: Pool, q: Pool, r: nat, i: nat)
    requires |p.cached| == |p.refs| && r < |p.tables| && i < |p.tables[r]|
    requires p.tables[r][i] < |p.refs| && p.refs[p.tables[r][i]] > 0
    requires var b := p.tables[r][i];
             q == p.(tables := p.tables[r := Without(p.tables[r], i)], refs := p.refs[b := p.refs[b] - 1],
                     free := if p.refs[b] == 1 && !p.cached[b] then p.free + [b] else p.free)
    ensures q == DropEntry(p, r, i)
  {}

  lemma DropNothing(p: Pool, r: nat, start: nat)
    requires |p.cached| == |p.refs| && r < |p.tables| && start >= |p.tables[r]|
    ensures DropFrom(p, r, start) == p
  {}

  lemma CutNothing(p: Pool, r: nat, start: nat)
    requires Shape(p) && r < |p.tables| && start >= |p.tables[r]|
    ensures FreeFrom(p, r, start).free == p.free
  {}

  function ToNats(blocks: seq<int>): (r: seq<nat>)
    requires forall i :: 0 <= i < |blocks| ==> blocks[i] >= 0
    ensures r == blocks
  {
    seq(|blocks|, i requires 0 <= i < |blocks| => blocks[i])
  }

  method IncreaseAll(refs: seq<nat>, blocks: seq<nat>) returns (more: seq<nat>)
    requires Below(blocks, |refs|)
    ensures more == Increased(refs, blocks)
  {
    more := refs;
    assert blocks[..0] == [];
    for i := 0 to |blocks|
      invariant Below(blocks[..i], |refs|) && more == Increased(refs, blocks[..i])
    {
      assert blocks[..i + 1][..i] == blocks[..i];
      more := more[blocks[i] := more[blocks[i]] + 1];
    }
    assert blocks[..|blocks|] == blocks;
  }

  class PrefixCache {
    var entries: map<u64, Entry>
    var lru: seq<u64>
    var stats: CacheStats
    const blockSize: nat
    const maxEntries: nat

    function View(): Cache
      reads this
    {
      Cache(entries, lru, blockSize, maxEntries, stats)
    }

    constructor (blockSize: nat, maxEntries: nat)
      requires blockSize > 0
      ensures View() == Cache(map[], [], blockSize, if maxEntries > 1 then maxEntries else 1, NoStats)
      ensures CacheOk(View())
    {
      this.blockSize := blockSize;
      this.maxEntries := if maxEntries > 1 then maxEntries else 1;
      entries := map[];
      lru := [];
      stats := NoStats;
    }

    // The walk from the tail of the list.
    method EvictOldest(n: nat, allocator: BlockAllocator) returns (evicted: nat)
      requires StoreOk(Store(allocator.View(), View()))
      modifies this, allocator
      ensures (Store(allocator.View(), View()), evicted)
           == EvictWalk(old(Store(allocator.View(), View())), |old(lru)|, 0, n, EVICT_SCAN_CAP)
    {
      hide StoreOk, EvictAt, Dropped, EvictWalk, EvictCached;
      ghost var s := Store(allocator.View(), View());
      evicted := 0;
      var budget := EVICT_SCAN_CAP;
      var i: nat := |lru|;
      var stopped := false;
      while i > 0 && evicted < n && !stopped
        invariant i <= |lru| && StoreOk(Store(allocator.View(), View()))
        invariant EvictWalk(s, |s.cache.lru|, 0, n, EVICT_SCAN_CAP)
               == if stopped then (Store(allocator.View(), View()), evicted)
                  else EvictWalk(Store(allocator.View(), View()), i, evicted, n, budget)
        decreases i
      {
        ghost var t := Store(allocator.View(), View());
        LruEntry(t, i - 1);
        WalkStep(t, i, evicted, n, budget);
        var h := lru[i - 1];
        var block := entries[h].block;
        if allocator.refs[block] == 0 {
          EvictAtKeeps(t, i - 1);
          lru := Dropped(lru, i - 1);
          entries := entries - {h};
          allocator.EvictCachedBlock(block);
          evicted := evicted + 1;
          stats := stats.(evictions := stats.evictions + 1);
          IsEvictAt(t, Store(allocator.View(), View()), i - 1);
          assert |lru| >= i - 1;
        }
        i := i - 1;
        if evicted > 0 {
          budget := budget - 1;
          if budget <= 0 {
            stopped := true;
          }
        }
      }
      if !stopped {
        WalkEnd(Store(allocator.View(), View()), i, evicted, n, budget);
      }
    }

    method Evict(n: int, allocator: BlockAllocator) returns (evicted: nat)
      requires StoreOk(Store(allocator.View(), View()))
      modifies this, allocator
      ensures (Store(allocator.View(), View()), evicted) == KvStore.Evict(old(Store(allocator.View(), View())), n)
    {
      hide StoreOk, EvictWalk;
      if n <= 0 {
        return 0;
      }
      evicted := EvictOldest(n, allocator);
      if evicted < n {
        stats := stats.(evictShortfalls := stats.evictShortfalls + 1);
      }
    }

    // A query: it changes nothing.
    method Lookup(prompt: seq<int32>, allocator: BlockAllocator) returns (blocks: seq<nat>, hashes: seq<u64>)
      requires blockSize > 0
      ensures IsMatch(Store(allocator.View(), View()), prompt, blocks, hashes)
    {
      hide Fnv.BlockHash;
      ghost var s := Store(allocator.View(), View());
      var maxBlocks := CacheableBlocks(|prompt|, blockSize);
      blocks, hashes := [], [];
      var prev: u64 := 0;
      for b := 0 to maxBlocks
        invariant |blocks| == |hashes| == b && Start(blockSize, b) <= |prompt|
        invariant prev == Chain(prompt, blockSize, b)
        invariant forall i :: 0 <= i < b ==> MatchedAt(s, prompt, blocks, hashes, i)
      {
        StartUpTo(blockSize, b + 1, maxBlocks);
        ghost var blocks0, hashes0 := blocks, hashes;
        var h := Fnv.ComputeBlockHash(prev, BlockOf(prompt, blockSize, b));
        if h !in entries {
          return;
        }
        var e := entries[h];
        if e.prevHash != prev || e.tokens != BlockOf(prompt, blockSize, b) {
          return;
        }
        if !Shareable(allocator.View(), e.block) {
          return;
        }
        blocks, hashes := blocks + [e.block], hashes + [h];
        prev := h;
        MoreMatched(s, prompt, blocks0, hashes0, blocks, hashes);
      }
    }

    // Only what was mounted becomes recent.
    method CommitMounted(hashes: seq<u64>)
      requires CacheOk(View())
      modifies this
      ensures View() == PrefixRecording.CommitMounted(old(View()), hashes)
    {
      hide CacheOk, Dropped, TouchAll;
      ghost var c := View();
      TouchEnds(lru, hashes);
      var i := 0;
      while i < |hashes|
        invariant 0 <= i <= |hashes| && View() == c.(lru := lru)
        invariant TouchAll(lru, hashes[i..]) == TouchAll(c.lru, hashes)
      {
        TouchStep(lru, hashes, i);
        if hashes[i] in lru {
          lru := [hashes[i]] + Dropped(lru, IndexOf(lru, hashes[i]));
        }
        i := i + 1;
      }
      TouchEnds(lru, hashes);
      stats := stats.(lookups := stats.lookups + 1,
                      hits := stats.hits + if hashes == [] then 0 else 1,
                      matchedBlocks := stats.matchedBlocks + |hashes|);
    }

    // One committed block: skipped when its hash has an entry, or when the cache
    // is full of entries in use.
    method RecordBlock(prompt: seq<int32>, row: seq<nat>, b: nat, prev: u64, h: u64, allocator: BlockAllocator)
      returns (added: bool)
      requires StoreOk(Store(allocator.View(), View())) && RowKnown(Store(allocator.View(), View()), prompt, row)
      requires b < |row| && Start(blockSize, b + 1) <= |prompt|
      requires prev == Chain(prompt, blockSize, b) && h == Chain(prompt, blockSize, b + 1)
      modifies this, allocator
      ensures Store(allocator.View(), View()) == Record(old(Store(allocator.View(), View())), prompt, row, b)
      ensures added <==> h !in old(entries) && h in entries
    {
      hide StoreOk, RowKnown, EvictWalk, Chain, Start, Evicting, BlockOf, Inserted, MakeRoom;
      ghost var s := Store(allocator.View(), View());
      if h in entries {
        return false;
      }
      RecordReady(s, prompt, row, b);
      MakeRoomIs(s);
      if |entries| >= maxEntries {
        var evicted := EvictOldest(1, allocator);
      }
      ghost var t := Store(allocator.View(), View());
      assert t == MakeRoom(s);
      if |entries| >= 2 * maxEntries {
        return false;
      }
      allocator.MarkCachedBlock(row[b]);
      entries := entries[h := Entry(prev, row[b], BlockOf(prompt, blockSize, b))];
      lru := [h] + lru;
      stats := stats.(inserts := stats.inserts + 1);
      IsInserted(t, Store(allocator.View(), View()), h, EntryFor(prompt, blockSize, b, row[b]));
      return true;
    }

    // Every committed whole block of the prompt that has not been recorded yet;
    // `chain` says how far the sequence has got.
    method InsertCommitted(prompt: seq<int32>, completed: nat, row: seq<nat>, chain: seq<u64>, allocator: BlockAllocator)
      returns (inserted: nat, chain1: seq<u64>)
      requires blockSize > 0 && StoreOk(Store(allocator.View(), View()))
      requires RowKnown(Store(allocator.View(), View()), prompt, row)
      requires |chain| <= |row| && IsChain(prompt, blockSize, chain)
      modifies this, allocator
      ensures IsChain(prompt, blockSize, chain1) && chain <= chain1
      ensures |chain| <= |chain1| <= |row|
      ensures |chain1| == Limit(|prompt|, blockSize, completed, |row|, |chain|)
      ensures |chain1| > |chain| ==>
                Start(blockSize, |chain1|) <= completed && |chain1| <= CacheableBlocks(|prompt|, blockSize)
      ensures || |chain1| == |row| || |chain1| >= CacheableBlocks(|prompt|, blockSize)
              || Start(blockSize, |chain1| + 1) > completed
      ensures Store(allocator.View(), View())
           == RecordFrom(old(Store(allocator.View(), View())), prompt, row, |chain|, |chain1|)
    {
      hide StoreOk, RowKnown, Chain, Start, Record, RecordFrom, BlockOf, CacheableBlocks, Recording, OnlyNew;
      ghost var s := Store(allocator.View(), View());
      ghost var limit: nat := Limit(|prompt|, blockSize, completed, |row|, |chain|);
      LimitFits(prompt, blockSize, completed, |row|, chain);
      LimitIs(|prompt|, blockSize, completed, |row|, |chain|);
      var committed := completed / blockSize;
      if committed > CacheableBlocks(|prompt|, blockSize) {
        committed := CacheableBlocks(|prompt|, blockSize);
      }
      inserted, chain1 := 0, chain;
      while |chain1| < committed && |chain1| < |row|
        invariant |chain| <= |chain1| <= limit <= |row| && chain <= chain1 && IsChain(prompt, blockSize, chain1)
        invariant StoreOk(Store(allocator.View(), View())) && RowKnown(Store(allocator.View(), View()), prompt, row)
        invariant RecordFrom(Store(allocator.View(), View()), prompt, row, |chain1|, limit)
               == RecordFrom(s, prompt, row, |chain|, limit)
        decreases limit - |chain1|
      {
        ghost var t := Store(allocator.View(), View());
        var b := |chain1|;
        StartUpTo(blockSize, b + 1, limit);
        var prev := if chain1 == [] then 0 else chain1[|chain1| - 1];
        ChainNext(prompt, blockSize, chain1);
        var h := Fnv.ComputeBlockHash(prev, BlockOf(prompt, blockSize, b));
        chain1 := chain1 + [h];
        RecordKeeps(t, prompt, row, b);
        RecordStep(t, prompt, row, b, limit);
        var added := RecordBlock(prompt, row, b, prev, h, allocator);
        inserted := inserted + if added then 1 else 0;
      }
      RecordNone(Store(allocator.View(), View()), prompt, row, limit);
    }
  }

  // ---------------------------------------------------------------- one step of each loop

  lemma WalkStep(t: Store, i: nat, evicted: nat, n: nat, budget: int)
    requires StoreOk(t) && 0 < i <= |t.cache.lru| && evicted < n
    requires t.cache.lru[i - 1] in t.cache.entries
    requires t.cache.entries[t.cache.lru[i - 1]].block < |t.pool.refs| == |t.pool.cached|
    ensures t.pool.refs[t.cache.entries[t.cache.lru[i - 1]].block] == 0 ==>
              && StoreOk(EvictAt(t, i - 1)) && i - 1 <= |EvictAt(t, i - 1).cache.lru|
              && EvictWalk(t, i, evicted, n, budget)
              == (if budget - 1 <= 0 then (EvictAt(t, i - 1), evicted + 1)
                  else EvictWalk(EvictAt(t, i - 1), i - 1, evicted + 1, n, budget - 1))
    ensures t.pool.refs[t.cache.entries[t.cache.lru[i - 1]].block] != 0 ==>
              EvictWalk(t, i, evicted, n, budget)
              == (if evicted > 0 then
                    if budget - 1 <= 0 then (t, evicted) else EvictWalk(t, i - 1, evicted, n, budget - 1)
                  else EvictWalk(t, i - 1, evicted, n, budget))
  {
    hide StoreOk;
    if t.pool.refs[t.cache.entries[t.cache.lru[i - 1]].block] == 0 {
      EvictAtKeeps(t, i - 1);
    }
  }

  lemma WalkEnd(t: Store, i: nat, evicted: nat, n: nat, budget: int)
    requires StoreOk(t) && i <= |t.cache.lru| && (i == 0 || evicted >= n)
    ensures EvictWalk(t, i, evicted, n, budget) == (t, evicted)
  {}

  lemma IsEvictAt(t: Store, u: Store, i: nat)
    requires i < |t.cache.lru| && t.cache.lru[i] in t.cache.entries
    requires t.cache.entries[t.cache.lru[i]].block < |t.pool.cached|
    requires u.pool == EvictCached(t.pool, t.cache.entries[t.cache.lru[i]].block)
    requires u.cache == t.cache.(entries := t.cache.entries - {t.cache.lru[i]}, lru := Dropped(t.cache.lru, i),
                                 stats := t.cache.stats.(evictions := t.cache.stats.evictions + 1))
    ensures u == EvictAt(t, i) && |u.cache.lru| == |t.cache.lru| - 1
  {}

  lemma MoreMatched(s: Store, prompt: seq<int32>, blocks: seq<nat>, hashes: seq<u64>, blocks1: seq<nat>, hashes1: seq<u64>)
    requires |blocks| == |hashes| && |blocks1| == |hashes1| && blocks <= blocks1 && hashes <= hashes1
    requires forall i :: 0 <= i < |blocks| ==> MatchedAt(s, prompt, blocks, hashes, i)
    ensures forall i :: 0 <= i < |blocks| ==> MatchedAt(s, prompt, blocks1, hashes1, i)
  {
    hide Start, Hit, Chain;
    forall i | 0 <= i < |blocks| ensures MatchedAt(s, prompt, blocks1, hashes1, i) {
      assert MatchedAt(s, prompt, blocks, hashes, i);
    }
  }

  lemma TouchStep(lru: seq<u64>, hashes: seq<u64>, i: nat)
    requires i < |hashes|
    ensures TouchAll(lru, hashes[i..]) == TouchAll(Touched(lru, hashes[i]), hashes[i + 1..])
  {
    assert hashes[i..][1..] == hashes[i + 1..];
  }

  lemma TouchEnds(lru: seq<u64>, hashes: seq<u64>)
    ensures TouchAll(lru, hashes[|hashes|..]) == lru
    ensures hashes[0..] == hashes
  {}

  lemma MakeRoomIs(s: Store)
    requires StoreOk(s)
    ensures MakeRoom(s) == if |s.cache.entries| >= s.cache.maxEntries
                           then EvictWalk(s, |s.cache.lru|, 0, 1, EVICT_SCAN_CAP).0 else s
  {}

  lemma IsInserted(t: Store, u: Store, h: u64, e: Entry)
    requires e.block < |t.pool.cached|
    requires u.pool == MarkCached(t.pool, e.block)
    requires u.cache == t.cache.(entries := t.cache.entries[h := e], lru := [h] + t.cache.lru,
                                 stats := t.cache.stats.(inserts := t.cache.stats.inserts + 1))
    ensures u == Inserted(t, h, e)
  {}

  // The chained hashes of the first blocks of a prompt.
  ghost predicate IsChain(prompt: seq<int32>, size: nat, chain: seq<u64>) {
    Start(size, |chain|) <= |prompt|
    && forall i :: 0 <= i < |chain| ==> ChainAt(prompt, size, chain, i)
  }

  ghost predicate ChainAt(prompt: seq<int32>, size: nat, chain: seq<u64>, i: nat)
    requires i < |chain|
  {
    Start(size, i + 1) <= |prompt| && chain[i] == Chain(prompt, size, i + 1)
  }

  lemma ChainNext(prompt: seq<int32>, size: nat, chain: seq<u64>)
    requires IsChain(prompt, size, chain) && Start(size, |chain| + 1) <= |prompt|
    ensures (if chain == [] then 0 else chain[|chain| - 1]) == Chain(prompt, size, |chain|)
    ensures Chain(prompt, size, |chain| + 1) == Fnv.BlockHash(Chain(prompt, size, |chain|), BlockOf(prompt, size, |chain|))
    ensures IsChain(prompt, size, chain + [Chain(prompt, size, |chain| + 1)])
  {
    hide Fnv.BlockHash, BlockOf;
    if chain != [] {
      assert ChainAt(prompt, size, chain, |chain| - 1);
    }
    LongerChain(prompt, size, chain, chain + [Chain(prompt, size, |chain| + 1)]);
  }

  lemma LongerChain(prompt: seq<int32>, size: nat, chain: seq<u64>, chain1: seq<u64>)
    requires IsChain(prompt, size, chain) && |chain1| == |chain| + 1 && chain1[..|chain|] == chain
    requires Start(size, |chain1|) <= |prompt| && chain1[|chain|] == Chain(prompt, size, |chain1|)
    ensures IsChain(prompt, size, chain1)
  {
    hide Start, Chain;
    forall i | 0 <= i < |chain1| ensures ChainAt(prompt, size, chain1, i) {
      if i < |chain| {
        assert ChainAt(prompt, size, chain, i);
        assert chain1[i] == chain[i];
      } else {
        assert i + 1 == |chain1|;
      }
    }
  }

  // How far a call of InsertCommitted gets.
  function Limit(n: nat, size: nat, completed: nat, held: nat, done: nat): (limit: nat)
    requires size > 0 && done <= held
    ensures done <= limit <= held
  {
    var committed := if completed / size < CacheableBlocks(n, size) then completed / size else CacheableBlocks(n, size);
    var reach := if committed < held then committed else held;
    if reach < done then done else reach
  }

  // Only whole computed blocks that may be shared, and all of them that the row holds.
  lemma LimitIs(n: nat, size: nat, completed: nat, held: nat, done: nat)
    requires size > 0 && done <= held
    ensures var limit := Limit(n, size, completed, held, done);
            && (limit > done ==> Start(size, limit) <= completed && limit <= CacheableBlocks(n, size))
            && (limit == held || limit >= CacheableBlocks(n, size) || Start(size, limit + 1) > completed)
  {
    hide CacheableBlocks, Start;
    var limit := Limit(n, size, completed, held, done);
    PositionOf(size, completed);
    if limit > done {
      StartUpTo(size, limit, completed / size);
    }
    if limit >= completed / size {
      StartNext(size, completed / size);
      StartUpTo(size, completed / size + 1, limit + 1);
    }
  }

  lemma LimitFits(prompt: seq<int32>, size: nat, completed: nat, held: nat, chain: seq<u64>)
    requires size > 0 && |chain| <= held && IsChain(prompt, size, chain)
    ensures Start(size, Limit(|prompt|, size, completed, held, |chain|)) <= |prompt|
  {
    hide Start;
    var limit := Limit(|prompt|, size, completed, held, |chain|);
    if limit > |chain| {
      StartUpTo(size, limit, CacheableBlocks(|prompt|, size));
    }
  }

  lemma RecordStep(s: Store, prompt: seq<int32>, row: seq<nat>, b: nat, limit: nat)
    requires StoreOk(s) && RowKnown(s, prompt, row)
    requires b < limit <= |row| && Start(s.cache.blockSize, limit) <= |prompt|
    requires Start(s.cache.blockSize, b + 1) <= |prompt|
    ensures var t := Record(s, prompt, row, b);
            && StoreOk(t) && RowKnown(t, prompt, row) && t.cache.blockSize == s.cache.blockSize
            && RecordFrom(s, prompt, row, b, limit) == RecordFrom(t, prompt, row, b + 1, limit)
  {
    hide StoreOk, RowKnown, Record, Chain, Start, Recording, OnlyNew;
    RecordKeeps(s, prompt, row, b);
    RecordingFrame(s, Record(s, prompt, row, b), prompt, row, b);
  }

  lemma RecordNone(s: Store, prompt: seq<int32>, row: seq<nat>, limit: nat)
    requires StoreOk(s) && RowKnown(s, prompt, row) && limit <= |row| && Start(s.cache.blockSize, limit) <= |prompt|
    ensures RecordFrom(s, prompt, row, limit, limit) == s
  {}

  // ---------------------------------------------------------------- the pool's own check

  // Decides the invariant.
  method InvariantHolds(pool: BlockAllocator) returns (ok: bool)
    requires Shape(pool.View())
    ensures ok <==> Inv(pool.View())
  {
    hide Occurrences, Count;
    var n := |pool.refs|;
    var good, freeSeen := CheckFreeList(pool.free, n);
    if !good {
      return false;
    }
    var occurrences;
    good, occurrences := CountEntries(pool.tables, n);
    if !good {
      return false;
    }
    for b := 0 to n
      invariant forall c :: 0 <= c < b ==> Accounted(pool.View(), c)
    {
      if occurrences[b] != pool.refs[b] {
        assert !Accounted(pool.View(), b);
        return false;
      }
      if freeSeen[b] {
        if pool.refs[b] != 0 || pool.cached[b] {
          assert !Accounted(pool.View(), b);
          return false;
        }
      } else if pool.refs[b] == 0 && !pool.cached[b] {
        assert !Accounted(pool.View(), b);
        return false;
      }
    }
    return true;
  }

  // A bad index or a duplicate ends the walk over the free list.
  method CheckFreeList(free: seq<nat>, n: nat) returns (good: bool, seen: seq<bool>)
    ensures good <==> Below(free, n) && NoDup(free)
    ensures good ==> |seen| == n && forall b :: 0 <= b < n ==> (seen[b] <==> b in free)
  {
    seen := seq(n, i => false);
    for i := 0 to |free|
      invariant |seen| == n && Below(free[..i], n) && NoDup(free[..i])
      invariant forall b :: 0 <= b < n ==> (seen[b] <==> b in free[..i])
    {
      var b := free[i];
      assert free[..i + 1] == free[..i] + [b];
      if b >= n {
        return false, seen;
      }
      if seen[b] {
        var j :| 0 <= j < i && free[j] == b;
        assert !NoDup(free);
        return false, seen;
      }
      assert b !in free[..i];
      seen := seen[b := true];
    }
    assert free[..|free|] == free;
    return true, seen;
  }

  // Counts the table entries of every block; a bad index or a row that holds a
  // block twice ends the walk. `stamp` remembers the last row that named a block.
  method CountEntries(tables: seq<seq<nat>>, n: nat) returns (good: bool, counts: seq<nat>)
    ensures good <==> forall r :: 0 <= r < |tables| ==> Below(tables[r], n) && NoDup(tables[r])
    ensures good ==> |counts| == n && forall b :: 0 <= b < n ==> counts[b] == Occurrences(tables, b)
  {
    hide Occurrences, Count;
    counts := seq(n, i => 0);
    var stamp: seq<int> := seq(n, i => -1);
    NoTables(tables);
    for r := 0 to |tables|
      invariant |counts| == n && |stamp| == n
      invariant forall q :: 0 <= q < r ==> Below(tables[q], n) && NoDup(tables[q])
      invariant forall b :: 0 <= b < n ==> counts[b] == Occurrences(tables[..r], b) && stamp[b] < r
    {
      var fine;
      ghost var counts0 := counts;
      fine, counts, stamp := CountRow(tables[r], r, n, counts, stamp);
      if !fine {
        return false, counts;
      }
      forall b | 0 <= b < n ensures counts[b] == Occurrences(tables[..r + 1], b) {
        OneMoreRow(tables, r, b);
      }
    }
    assert tables[..|tables|] == tables;
    return true, counts;
  }

  lemma NoTables(tables: seq<seq<nat>>)
    ensures forall b :: Occurrences(tables[..0], b) == 0
  {}

  lemma OneMoreRow(tables: seq<seq<nat>>, r: nat, b: nat)
    requires r < |tables|
    ensures Occurrences(tables[..r + 1], b) == Occurrences(tables[..r], b) + Count(tables[r], b)
  {
    assert tables[..r + 1][..r] == tables[..r];
  }

  method CountRow(row: seq<nat>, r: int, n: nat, counts0: seq<nat>, stamp0: seq<int>)
    returns (good: bool, counts: seq<nat>, stamp: seq<int>)
    requires |counts0| == n && |stamp0| == n && forall b :: 0 <= b < n ==> stamp0[b] < r
    ensures good <==> Below(row, n) && NoDup(row)
    ensures good ==> |counts| == n && |stamp| == n
    ensures good ==> forall b :: 0 <= b < n ==> counts[b] == counts0[b] + Count(row, b) && stamp[b] <= r
  {
    hide Count;
    counts, stamp := counts0, stamp0;
    NothingCounted(row);
    for i := 0 to |row|
      invariant |counts| == n && |stamp| == n && Below(row[..i], n) && NoDup(row[..i])
      invariant forall b :: 0 <= b < n ==> counts[b] == counts0[b] + Count(row[..i], b)
      invariant forall b :: 0 <= b < n ==> stamp[b] <= r && (stamp[b] == r <==> b in row[..i])
    {
      var b := row[i];
      assert row[..i + 1] == row[..i] + [b];
      if b >= n {
        return false, counts, stamp;
      }
      if stamp[b] == r {
        var j :| 0 <= j < i && row[j] == b;
        assert !NoDup(row);
        return false, counts, stamp;
      }
      assert b !in row[..i];
      forall c | 0 <= c < n ensures Count(row[..i + 1], c) == Count(row[..i], c) + if c == b then 1 else 0 {
        CountConcat(row[..i], [b], c);
        CountOne(b, c);
      }
      stamp := stamp[b := r];
      counts := counts[b := counts[b] + 1];
    }
    assert row[..|row|] == row;
    return true, counts, stamp;
  }

  lemma NothingCounted(row: seq<nat>)
    ensures forall b :: Count(row[..0], b) == 0
  {}
}
