/**
 The steps of the serving state machine, each of which keeps the block
 accounting and, as long as no two block prefixes collide, the contents.
 */
module ServingSteps {
  import opened Wrappers
  import opened Bytes
  import opened BlockPool
  import opened KvStore
  import opened PrefixMatching
  import opened PrefixRecording
  import opened Serving

  // ---------------------------------------------------------------- eviction

  lemma EvictingWorld(w: World, t: Store)
    requires WorldOk(w) && Evicting(w.store, t)
    ensures WorldOk(w.(store := t))
    ensures ContentOk(w) ==> ContentOk(w.(store := t))
  {
    hide SeqOk, Tight, EntryFrom, CellsTrue, PoolOk, CacheOk, Coupled;
    var s, w1 := w.store, w.(store := t);
    EvictingFrame(s, t);
    StoreSizes(s);
    EntriesShrink(s.cache.entries, t.cache.entries);
    forall i | i in w.seqs
      ensures SeqOk(t, w.seqs[i]) && Row(t, w.seqs[i]) == Row(s, w.seqs[i])
      ensures Tight(s, w.seqs[i]) ==> Tight(t, w.seqs[i])
    {
      EvictingSeq(s, t, w.seqs[i]);
    }
    if ContentOk(w) {
      EntriesStay(w, w1);
      forall i | i in w.seqs ensures SeqTrue(w1, w.seqs[i]) {
        assert SeqTrue(w, w.seqs[i]);
      }
    }
  }

  lemma EvictingSeq(s: Store, t: Store, q: Sequence)
    requires StoreOk(s) && Evicting(s, t) && SeqOk(s, q)
    ensures SeqOk(t, q) && Row(t, q) == Row(s, q)
    ensures Tight(s, q) ==> Tight(t, q)
  {
    hide StoreOk, RowKnown, Start, Shielded, Tight;
    EvictingFrame(s, t);
    EvictingKnown(s, t, q.prompt, Row(s, q));
    EvictingPool(s, t);
    SeqFrame(s, t, q);
  }

  // ---------------------------------------------------------------- growing

  // One more block for a sequence that is about to be served.
  function Grow(w: World, id: nat): World
    requires StoreOk(w.store) && id in w.seqs
  {
    w.(store := AppendBlocks(w.store, w.seqs[id].row, 1).0, growing := Some(id))
  }

  function GrowOne(w: World, id: nat): World
    requires id in w.seqs && w.seqs[id].row < |w.store.pool.tables|
    requires w.store.pool.free != [] && w.store.pool.free[|w.store.pool.free| - 1] < |w.store.pool.refs|
  {
    w.(store := w.store.(pool := TakeOne(w.store.pool, w.seqs[id].row)), growing := Some(id))
  }

  lemma LastFree(p: Pool)
    requires PoolOk(p) && p.free != []
    ensures p.free[|p.free| - 1] < |p.refs| == |p.cached|
    ensures p.refs[p.free[|p.free| - 1]] == 0 && !p.cached[p.free[|p.free| - 1]]
  {
    hide Occurrences;
    var b := p.free[|p.free| - 1];
    assert Below(p.free, |p.refs|);
    assert Accounted(p, b);
  }

  lemma GrowOneStore(s: Store, r: nat)
    requires StoreOk(s) && r < |s.pool.tables| && s.pool.busy[r] && s.pool.free != [] && |s.pool.tables[r]| < s.pool.width
    ensures s.pool.free[|s.pool.free| - 1] < |s.pool.refs|
    ensures StoreOk(s.(pool := TakeOne(s.pool, r)))
  {
    hide Inv, CacheOk, Coupled;
    StorePool(s);
    LastFree(s.pool);
    TakeOneKeeps(s.pool, r);
    CoupledIgnores(s.pool, TakeOne(s.pool, r), s.cache);
  }

  lemma GrowOneSeq(s: Store, q: Sequence)
    requires StoreOk(s) && SeqOk(s, q) && s.pool.free != [] && |Row(s, q)| < s.pool.width
    ensures s.pool.free[|s.pool.free| - 1] < |s.pool.refs|
    ensures SeqOk(s.(pool := TakeOne(s.pool, q.row)), q)
  {
    hide Inv, CacheOk, Coupled, Start, Chain, Accounted;
    GrowOneStore(s, q.row);
    StorePool(s);
    LastFree(s.pool);
    var t := s.(pool := TakeOne(s.pool, q.row));
    var row, row1 := Row(s, q), Row(t, q);
    forall i | 0 <= i < |row1| ensures Known(t, q.prompt, row1, i) {
      if i < |row| {
        assert Known(s, q.prompt, row, i);
      }
    }
    KnownRow(t, q.row, q.prompt);
    forall i | 0 <= i < |row1| && Pinned(t, row1[i])
      ensures Start(s.cache.blockSize, i + 1) <= q.progress && Start(s.cache.blockSize, i + 1) < |q.prompt|
    {
      assert row1[i] == row[i];
    }
    StartUpTo(s.cache.blockSize, |row|, |row| + 1);
  }

  lemma GrowOneKeeps(w: World, id: nat)
    requires WorldOk(w) && id in w.seqs && (w.growing == None || w.growing == Some(id))
    requires w.store.pool.free != [] && |Row(w.store, w.seqs[id])| < w.store.pool.width
    ensures w.seqs[id].row < |w.store.pool.tables|
    ensures w.store.pool.free[|w.store.pool.free| - 1] < |w.store.pool.refs|
    ensures WorldOk(GrowOne(w, id))
    ensures ContentOk(w) ==> ContentOk(GrowOne(w, id))
  {
    hide SeqOk, Tight, EntryFrom, CellsTrue, Inv, CacheOk, Coupled;
    var s, q := w.store, w.seqs[id];
    InTable(s, q);
    GrowOneStore(s, q.row);
    GrowOneSeq(s, q);
    LastFree(s.pool);
    var w1 := GrowOne(w, id);
    forall i | i in w.seqs && i != id
      ensures SeqOk(w1.store, w.seqs[i]) && Row(w1.store, w.seqs[i]) == Row(s, w.seqs[i])
      ensures Tight(s, w.seqs[i]) ==> Tight(w1.store, w.seqs[i])
    {
      InTable(s, w.seqs[i]);
      SeqSamePins(s, w1.store, w.seqs[i]);
    }
    if ContentOk(w) {
      assert SeqTrue(w, q);
      MoreRow(w.kv, s.cache.blockSize, Row(s, q), Row(w1.store, q), Tokens(q), Committed(q));
      EntriesStay(w, w1);
      SeqsStay(w, w1, id);
    }
  }

  lemma InTable(s: Store, q: Sequence)
    requires SeqOk(s, q)
    ensures q.row < |s.pool.tables| == |s.pool.busy| && s.pool.busy[q.row]
    ensures Row(s, q) == s.pool.tables[q.row]
    ensures NoDup(Row(s, q)) && Committed(q) <= Start(s.cache.blockSize, |Row(s, q)|)
    ensures Committed(q) <= |Tokens(q)|
  {
    hide Start;
  }

  // Blocks after the committed positions add nothing to check.
  lemma MoreRow(kv: Kv, size: nat, row: seq<nat>, row1: seq<nat>, tokens: seq<int32>, n: nat)
    requires CellsTrue(kv, size, row, tokens, n) && row <= row1 && n <= Start(size, |row|)
    ensures CellsTrue(kv, size, row1, tokens, n)
  {
    forall i, o | 0 <= i < |row1| && Inside(size, n, i, o) ensures CellTrue(kv, size, row1, tokens, i, o) {
      if i < |row| {
        assert CellTrue(kv, size, row, tokens, i, o);
      } else {
        StartUpTo(size, |row|, i);
      }
    }
  }

  // Growing, with whatever eviction it takes.
  lemma GrowKeeps(w: World, id: nat)
    requires WorldOk(w) && id in w.seqs && (w.growing == None || w.growing == Some(id))
    ensures WorldOk(Grow(w, id))
    ensures ContentOk(w) ==> ContentOk(Grow(w, id))
  {
    hide WorldOk, ContentOk, StoreOk, Evicting, TakeOne;
    OfWorld(w, id);
    var s, r := w.store, w.seqs[id].row;
    AppendKeeps(s, r, 1);
    if AppendBlocks(s, r, 1).1 < 0 {
      EvictingWorld(w, AppendBlocks(s, r, 1).0);
      StillOk(w.(store := AppendBlocks(s, r, 1).0), id);
    } else {
      var u := ReclaimFor(s, 1);
      EvictingWorld(w, u);
      EvictingPool(s, u);
      OfWorld(w.(store := u), id);
      StorePool(u);
      assert u.pool.free != [];
      GrowOneKeeps(w.(store := u), id);
      TakeIsOne(u.pool, r);
      assert Grow(w, id) == GrowOne(w.(store := u), id);
    }
  }

  lemma OfWorld(w: World, id: nat)
    requires WorldOk(w) && id in w.seqs
    ensures StoreOk(w.store) && SeqOk(w.store, w.seqs[id])
    ensures w.seqs[id].row < |w.store.pool.tables| == |w.store.pool.busy| && w.store.pool.busy[w.seqs[id].row]
    ensures Row(w.store, w.seqs[id]) == w.store.pool.tables[w.seqs[id].row]
  {
    hide StoreOk;
  }

  // One sequence more may hold blocks it has not used.
  lemma StillOk(w: World, id: nat)
    requires WorldOk(w) && (w.growing == None || w.growing == Some(id))
    ensures WorldOk(w.(growing := Some(id)))
    ensures ContentOk(w) ==> ContentOk(w.(growing := Some(id)))
  {
    hide SeqOk, StoreOk, Tight, EntryFrom, SeqTrue;
    var w1 := w.(growing := Some(id));
    if ContentOk(w) {
      EntriesStay(w, w1);
      forall i | i in w.seqs ensures SeqTrue(w1, w.seqs[i]) {
        SeqTrueSame(w, w1, w.seqs[i]);
      }
    }
  }

  lemma SeqTrueSame(w: World, w1: World, q: Sequence)
    requires SeqTrue(w, q) && w1.kv == w.kv && w1.store.cache.blockSize == w.store.cache.blockSize
    requires Row(w1.store, q) == Row(w.store, q)
    ensures SeqTrue(w1, q)
  {}

  lemma TakeIsOne(p: Pool, r: nat)
    requires PoolOk(p) && r < |p.tables| && p.free != [] && |p.tables[r]| < p.width
    ensures p.free[|p.free| - 1] < |p.refs| && Take(p, r, 1) == TakeOne(p, r)
  {
    LastFree(p);
    hide PoolOk;
    assert Take(TakeOne(p, r), r, 0) == TakeOne(p, r);
  }

  // ---------------------------------------------------------------- admission

  // A new row for a request; nothing is mounted yet.
  function Enter(w: World, id: nat, prompt: seq<int32>, row: nat): World
    requires row < |w.store.pool.busy|
  {
    w.(store := w.store.(pool := w.store.pool.(busy := w.store.pool.busy[row := true])),
       seqs := w.seqs[id := Sequence(prompt, row, 0, false, [], 0)],
       seen := w.seen + {prompt})
  }

  lemma EnterKeeps(w: World, id: nat, prompt: seq<int32>, row: nat)
    requires WorldOk(w) && id !in w.seqs && prompt != [] && row < |w.store.pool.busy| && !w.store.pool.busy[row]
    ensures WorldOk(Enter(w, id, prompt, row))
    ensures Row(Enter(w, id, prompt, row).store, Enter(w, id, prompt, row).seqs[id]) == []
    ensures ContentOk(w) ==> ContentOk(Enter(w, id, prompt, row))
  {
    hide SeqOk, Tight, EntryTrue, SeqTrue, Inv, CacheOk, Coupled, OwnRows, SharedPinned;
    var s, w1 := w.store, Enter(w, id, prompt, row);
    BusyStore(s, row);
    IdleRowIsEmpty(s.pool, row);
    forall i | i in w.seqs
      ensures SeqOk(w1.store, w.seqs[i]) && Row(w1.store, w.seqs[i]) == Row(s, w.seqs[i])
      ensures Tight(s, w.seqs[i]) ==> Tight(w1.store, w.seqs[i])
      ensures w.seqs[i].row != row
    {
      InTable(s, w.seqs[i]);
      SeqSamePins(s, w1.store, w.seqs[i]);
    }
    EmptySeq(w1.store, w1.seqs[id]);
    EnterOwnRows(w, w1, id);
    assert SharedPinned(s.pool) ==> SharedPinned(w1.store.pool) by {
      SharedSame(s.pool, w1.store.pool);
    }
    if ContentOk(w) {
      EntriesStay(w, w1);
      SeqsStay(w, w1, id);
      EmptyTrue(w1, w1.seqs[id]);
    }
  }

  lemma SharedSame(p: Pool, p1: Pool)
    requires p1.refs == p.refs && p1.cached == p.cached
    ensures SharedPinned(p) ==> SharedPinned(p1)
  {}

  lemma EmptyTrue(w: World, q: Sequence)
    requires Row(w.store, q) == []
    ensures SeqTrue(w, q)
  {}

  lemma EnterOwnRows(w: World, w1: World, id: nat)
    requires OwnRows(w.store, w.seqs) && id !in w.seqs && id in w1.seqs && w1.seqs[id].row < |w.store.pool.busy|
    requires w1.store.pool.busy == w.store.pool.busy[w1.seqs[id].row := true]
    requires w1.seqs == w.seqs[id := w1.seqs[id]] && forall i :: i in w.seqs ==> w.seqs[i].row != w1.seqs[id].row
    ensures OwnRows(w1.store, w1.seqs)
  {
    forall r | 0 <= r < |w1.store.pool.busy| && w1.store.pool.busy[r] ensures exists i :: i in w1.seqs && w1.seqs[i].row == r {
      if r == w1.seqs[id].row {
        assert w1.seqs[id].row == r;
      } else {
        var i :| i in w.seqs && w.seqs[i].row == r;
        assert w1.seqs[i].row == r;
      }
    }
  }

  // The same cells, and no entry that was not there.
  lemma EntriesStay(w: World, w1: World)
    requires ContentOk(w) && w1.kv == w.kv && w.seen <= w1.seen
    requires w1.store.cache.blockSize == w.store.cache.blockSize
    requires forall h :: h in w1.store.cache.entries ==>
               h in w.store.cache.entries && w1.store.cache.entries[h] == w.store.cache.entries[h]
    ensures forall h :: h in w1.store.cache.entries ==> EntryTrue(w1, h)
  {
    hide EntryFrom, SeqTrue;
    forall h | h in w1.store.cache.entries ensures EntryTrue(w1, h) {
      assert EntryTrue(w, h);
    }
  }

  // The same cells and the same row, for every sequence but one.
  lemma SeqsStay(w: World, w1: World, id: nat)
    requires ContentOk(w) && w1.kv == w.kv && w1.store.cache.blockSize == w.store.cache.blockSize
    requires forall i :: i in w1.seqs && i != id ==>
               i in w.seqs && w1.seqs[i] == w.seqs[i] && Row(w1.store, w.seqs[i]) == Row(w.store, w.seqs[i])
    ensures forall i :: i in w1.seqs && i != id ==> SeqTrue(w1, w1.seqs[i])
  {
    hide EntryTrue, CellsTrue;
    forall i | i in w1.seqs && i != id ensures SeqTrue(w1, w1.seqs[i]) {
      assert SeqTrue(w, w.seqs[i]);
    }
  }

  lemma EmptySeq(s: Store, q: Sequence)
    requires q.row < |s.pool.tables| == |s.pool.busy| && s.pool.busy[q.row] && s.pool.tables[q.row] == []
    requires q.prompt != [] && q == Sequence(q.prompt, q.row, 0, false, [], 0)
    ensures SeqOk(s, q) && Tight(s, q)
  {}

  // The matched blocks are mounted, their entries become the most recent, and
  // prefill starts behind them.
  function Mount(w: World, id: nat, blocks: seq<nat>, hashes: seq<u64>): World
    requires id in w.seqs && w.seqs[id].row < |w.store.pool.tables| && Below(blocks, |w.store.pool.refs|)
  {
    var q := w.seqs[id];
    var s := w.store.(pool := if blocks == [] then w.store.pool else Mounted(w.store.pool, q.row, blocks));
    w.(store := s.(cache := CommitMounted(s.cache, hashes)),
       seqs := w.seqs[id := q.(progress := Start(w.store.cache.blockSize, |blocks|))])
  }

  // What is matched can always be mounted into an empty row.
  lemma MatchMountable(s: Store, prompt: seq<int32>, row: nat, blocks: seq<nat>, hashes: seq<u64>)
    requires StoreOk(s) && IsMatch(s, prompt, blocks, hashes) && blocks != []
    requires row < |s.pool.tables| && s.pool.tables[row] == [] && prompt != []
    requires |prompt| <= Start(s.cache.blockSize, s.pool.width)
    ensures Shape(s.pool) && Mountable(s.pool, row, blocks)
    ensures Below(blocks, |s.pool.refs|)
    ensures forall i :: 0 <= i < |blocks| ==> Pinned(s, blocks[i])
  {
    hide Inv, CacheOk, Start, Chain, CacheableBlocks, BlockOf;
    StorePool(s);
    CacheSize(s);
    forall i | 0 <= i < |blocks| ensures MountableBlock(s.pool, row, blocks[i]) && Pinned(s, blocks[i]) {
      assert MatchedAt(s, prompt, blocks, hashes, i);
    }
    MatchFits(s, prompt, blocks, hashes);
    if |blocks| > s.pool.width {
      StartUpTo(s.cache.blockSize, s.pool.width, |blocks|);
      assert false;
    }
  }

  lemma MatchFits(s: Store, prompt: seq<int32>, blocks: seq<nat>, hashes: seq<u64>)
    requires s.cache.blockSize > 0 && IsMatch(s, prompt, blocks, hashes) && prompt != []
    ensures Start(s.cache.blockSize, |blocks|) < |prompt|
  {
    hide MatchedAt, Hit;
    StartUpTo(s.cache.blockSize, |blocks|, CacheableBlocks(|prompt|, s.cache.blockSize));
  }

  lemma MountedSeq(s: Store, t: Store, q: Sequence, blocks: seq<nat>, hashes: seq<u64>)
    requires StoreOk(s) && SeqOk(s, q) && Row(s, q) == [] && q.progress == 0 && q.recorded == 0
    requires IsMatch(s, q.prompt, blocks, hashes) && StoreOk(t)
    requires t.pool.tables == s.pool.tables[q.row := blocks] && t.pool.busy == s.pool.busy && t.pool.cached == s.pool.cached
    requires t.cache.entries == s.cache.entries && t.cache.blockSize == s.cache.blockSize
    ensures SeqOk(t, q.(progress := Start(s.cache.blockSize, |blocks|)))
    ensures Tight(t, q.(progress := Start(s.cache.blockSize, |blocks|)))
    ensures Row(t, q.(progress := Start(s.cache.blockSize, |blocks|))) == blocks
  {
    hide Inv, CacheOk, Coupled, Start, Chain, Shareable, BlockOf, NoDup;
    var size, q1 := s.cache.blockSize, q.(progress := Start(s.cache.blockSize, |blocks|));
    CacheSize(s);
    MatchFits(s, q.prompt, blocks, hashes);
    StorePool(t);
    forall i | 0 <= i < |blocks| ensures Known(t, q.prompt, blocks, i) {
      assert MatchedAt(s, q.prompt, blocks, hashes, i);
    }
    hide IsMatch;
    KnownRow(t, q.row, q.prompt);
    forall i | 0 <= i < |blocks| && Pinned(t, blocks[i])
      ensures Start(size, i + 1) <= q1.progress && Start(size, i + 1) < |q1.prompt|
    {
      StartUpTo(size, i + 1, |blocks|);
    }
    if blocks != [] {
      StartUpTo(size, |blocks| - 1, |blocks|);
    }
    StartUpTo(size, 0, |blocks|);
    ZeroStart(size);
  }

  lemma ZeroStart(size: nat)
    ensures Start(size, 0) == 0
  {}

  lemma CacheSize(s: Store)
    requires StoreOk(s)
    ensures s.cache.blockSize > 0 && s.cache.maxEntries > 0
  {
    hide PoolOk, Coupled;
  }

  lemma MountPool(s: Store, row: nat, blocks: seq<nat>, hashes: seq<u64>, prompt: seq<int32>)
    requires StoreOk(s) && IsMatch(s, prompt, blocks, hashes) && NoDup(blocks) && prompt != []
    requires row < |s.pool.tables| == |s.pool.busy| && s.pool.tables[row] == [] && s.pool.busy[row]
    requires |prompt| <= Start(s.cache.blockSize, s.pool.width)
    ensures Below(blocks, |s.pool.refs|)
    ensures var p := if blocks == [] then s.pool else Mounted(s.pool, row, blocks);
            && StoreOk(Store(p, CommitMounted(s.cache, hashes)))
            && p == s.pool.(refs := p.refs, tables := s.pool.tables[row := blocks])
            && (SharedPinned(s.pool) ==> SharedPinned(p))
  {
    hide Inv, CacheOk, Coupled, IsMatch, Mountable, Start, TouchAll, Increased;
    if blocks != [] {
      MatchMountable(s, prompt, row, blocks, hashes);
      MountStore(s, row, blocks);
      assert blocks + [] == blocks;
      var p := Mounted(s.pool, row, blocks);
      CommitStore(Store(p, s.cache), hashes);
      if SharedPinned(s.pool) {
        MountedShared(s, row, blocks);
      }
    } else {
      CommitStore(s, hashes);
      assert s.pool.tables[row := []] == s.pool.tables;
    }
  }

  lemma MountedShared(s: Store, row: nat, blocks: seq<nat>)
    requires Below(blocks, |s.pool.refs|) && row < |s.pool.tables| && SharedPinned(s.pool)
    requires forall i :: 0 <= i < |blocks| ==> Pinned(s, blocks[i])
    ensures SharedPinned(Mounted(s.pool, row, blocks))
  {
    hide Increased;
    var p := Mounted(s.pool, row, blocks);
    forall b | 0 <= b < |p.refs| && p.refs[b] > 1 ensures b < |p.cached| && p.cached[b] {
      IncreasedCount(s.pool.refs, blocks, b);
      CountIn(blocks, b);
      if b in blocks {
        var i :| 0 <= i < |blocks| && blocks[i] == b;
        assert Pinned(s, blocks[i]);
      }
    }
  }

  // An entry that a prompt hits at block i holds the KV of that very prefix,
  // unless two prompts fork.
  lemma EntryCell(seen: set<seq<int32>>, kv: Kv, size: nat, h: u64, e: Entry, p: seq<int32>, k: nat,
                  prompt: seq<int32>, i: nat, o: nat)
    requires size > 0 && NoFork(seen, size) && p in seen && prompt in seen && o < size
    requires EntryFrom(kv, size, h, e, p, k)
    requires i < CacheableBlocks(|prompt|, size) && Fits(prompt, size, i) && Steady(prompt, size, i + 1)
    requires e.prevHash == Chain(prompt, size, i) && e.tokens == BlockOf(prompt, size, i)
    ensures BlockCell(kv, size, e.block, prompt, i, o)
  {
    hide Chain, NoFork, BlockOf, CacheableBlocks;
    SameContext(seen, size, p, k, prompt, i);
    PrefixGrows(p, size, k);
    PrefixGrows(prompt, size, i);
    StartNext(size, i);
    hide Start;
    assert p[..Start(size, i + 1)] == prompt[..Start(size, i + 1)];
    SamePart(p, prompt, Start(size, i + 1), Start(size, i) + o + 1);
    assert BlockCell(kv, size, e.block, p, k, o);
  }

  lemma MatchedCells(w: World, q: Sequence, blocks: seq<nat>, hashes: seq<u64>)
    requires w.store.cache.blockSize > 0 && NoFork(w.seen, w.store.cache.blockSize)
    requires ContentOk(w) && q.prompt in w.seen && IsMatch(w.store, q.prompt, blocks, hashes)
    ensures CellsTrue(w.kv, w.store.cache.blockSize, blocks, q.prompt, Start(w.store.cache.blockSize, |blocks|))
  {
    hide Chain, Start, SeqTrue, CacheableBlocks, NoFork, EntryFrom, BlockCell, Steady, BlockOf, Shareable;
    var size := w.store.cache.blockSize;
    MatchSteady(w.store, q.prompt, blocks, hashes);
    forall i, o | 0 <= i < |blocks| && Inside(size, Start(size, |blocks|), i, o)
      ensures CellTrue(w.kv, size, blocks, q.prompt, i, o)
    {
      assert MatchedAt(w.store, q.prompt, blocks, hashes, i);
      var h := hashes[i];
      assert EntryTrue(w, h);
      var p, k: nat :| p in w.seen && EntryFrom(w.kv, size, h, w.store.cache.entries[h], p, k);
      SteadyPart(q.prompt, size, |blocks|, i + 1);
      CacheableFits(q.prompt, size, i);
      EntryCell(w.seen, w.kv, size, h, w.store.cache.entries[h], p, k, q.prompt, i, o);
    }
  }

  lemma SamePart(p: seq<int32>, q: seq<int32>, n: nat, k: nat)
    requires k <= n <= |p| && n <= |q| && p[..n] == q[..n]
    ensures p[..k] == q[..k]
  {
    assert p[..k] == p[..n][..k];
    assert q[..k] == q[..n][..k];
  }

  // Mounting a match keeps the accounting exactly when the prompt does not
  // repeat its first block behind a hash of 0, and the contents when no two
  // prompts fork.
  lemma MountKeeps(w: World, id: nat, blocks: seq<nat>, hashes: seq<u64>)
    requires WorldOk(w) && id in w.seqs
    requires var q := w.seqs[id];
             && Row(w.store, q) == [] && q.progress == 0 && q.recorded == 0 && !q.complete
             && w.store.cache.blockSize > 0
             && IsMatch(w.store, q.prompt, blocks, hashes)
             && |q.prompt| <= Start(w.store.cache.blockSize, w.store.pool.width)
    ensures w.seqs[id].row < |w.store.pool.tables| && Below(blocks, |w.store.pool.refs|)
    ensures WorldOk(Mount(w, id, blocks, hashes)) <==> !Repeats(w.seqs[id].prompt, w.store.cache.blockSize, |blocks|)
    ensures ContentOk(w) && NoFork(w.seen, w.store.cache.blockSize) ==> ContentOk(Mount(w, id, blocks, hashes))
  {
    hide WorldOk, ContentOk, IsMatch, Start, NoFork, Repeats, NoDup, Mounted, TouchAll;
    var s, q := w.store, w.seqs[id];
    OfWorld(w, id);
    InTable(s, q);
    NotEmpty(s, q);
    MatchDistinct(s, q.prompt, blocks, hashes);
    MatchBelow(s, q.prompt, q.row, blocks, hashes);
    MountRows(w, id, blocks, hashes);
    if NoDup(blocks) {
      MountAccounts(w, id, blocks, hashes);
    } else {
      MountBreaks(w, id, blocks, hashes);
    }
    if ContentOk(w) && NoFork(w.seen, s.cache.blockSize) {
      MountContents(w, id, blocks, hashes);
    }
  }

  lemma MatchBelow(s: Store, prompt: seq<int32>, row: nat, blocks: seq<nat>, hashes: seq<u64>)
    requires StoreOk(s) && IsMatch(s, prompt, blocks, hashes) && prompt != []
    requires row < |s.pool.tables| && s.pool.tables[row] == [] && |prompt| <= Start(s.cache.blockSize, s.pool.width)
    ensures Below(blocks, |s.pool.refs|)
  {
    hide StoreOk, IsMatch, Start, Mountable;
    if blocks != [] {
      MatchMountable(s, prompt, row, blocks, hashes);
    }
  }

  // The mounted row is the match, and the other rows are as they were.
  lemma MountRows(w: World, id: nat, blocks: seq<nat>, hashes: seq<u64>)
    requires id in w.seqs && w.seqs[id].row < |w.store.pool.tables| && w.store.pool.tables[w.seqs[id].row] == []
    requires Below(blocks, |w.store.pool.refs|)
    ensures var w1 := Mount(w, id, blocks, hashes);
            w1.store.pool == w.store.pool.(refs := w1.store.pool.refs,
                                           tables := w.store.pool.tables[w.seqs[id].row := blocks])
  {
    hide Increased, TouchAll, Start;
    assert blocks + [] == blocks;
    assert blocks == [] ==> w.store.pool.tables[w.seqs[id].row := []] == w.store.pool.tables;
  }

  lemma MountBreaks(w: World, id: nat, blocks: seq<nat>, hashes: seq<u64>)
    requires id in w.seqs && w.seqs[id].row < |w.store.pool.tables| && Below(blocks, |w.store.pool.refs|)
    requires Row(Mount(w, id, blocks, hashes).store, Mount(w, id, blocks, hashes).seqs[id]) == blocks && !NoDup(blocks)
    ensures !WorldOk(Mount(w, id, blocks, hashes))
  {
    hide StoreOk, Shielded, Start, Known, Mounted, TouchAll, NoDup;
    var w1 := Mount(w, id, blocks, hashes);
    if WorldOk(w1) {
      RowNoDup(w1, id);
      assert false;
    }
  }

  lemma RowNoDup(w: World, id: nat)
    requires WorldOk(w) && id in w.seqs
    ensures NoDup(Row(w.store, w.seqs[id]))
  {
    hide StoreOk, Shielded, Start, Known, NoDup;
    assert SeqOk(w.store, w.seqs[id]);
  }

  lemma MountContents(w: World, id: nat, blocks: seq<nat>, hashes: seq<u64>)
    requires WorldOk(w) && ContentOk(w) && id in w.seqs
    requires w.seqs[id].row < |w.store.pool.tables| && Below(blocks, |w.store.pool.refs|)
    requires var q := w.seqs[id];
             && Row(w.store, q) == [] && !q.complete && w.store.cache.blockSize > 0
             && IsMatch(w.store, q.prompt, blocks, hashes) && NoFork(w.seen, w.store.cache.blockSize)
    ensures ContentOk(Mount(w, id, blocks, hashes))
  {
    hide SeqOk, Tight, EntryTrue, SeqTrue, StoreOk, IsMatch, TouchAll, Start, NoFork, SharedPinned, OwnRows, Mounted,
         CellsTrue;
    var s, q := w.store, w.seqs[id];
    OfWorld(w, id);
    InTable(s, q);
    NotEmpty(s, q);
    MountRows(w, id, blocks, hashes);
    var w1 := Mount(w, id, blocks, hashes);
    forall i | i in w.seqs && i != id ensures Row(w1.store, w.seqs[i]) == Row(s, w.seqs[i]) {
      RowsDiffer(w, i, id);
    }
    EntriesStay(w, w1);
    SeqsStay(w, w1, id);
    MatchedCells(w, q, blocks, hashes);
    MountTrue(w1, w1.seqs[id], blocks);
  }

  lemma MountAccounts(w: World, id: nat, blocks: seq<nat>, hashes: seq<u64>)
    requires WorldOk(w) && id in w.seqs && NoDup(blocks)
    requires w.seqs[id].row < |w.store.pool.tables| && Below(blocks, |w.store.pool.refs|)
    requires var q := w.seqs[id];
             && Row(w.store, q) == [] && q.progress == 0 && q.recorded == 0 && !q.complete
             && w.store.cache.blockSize > 0
             && IsMatch(w.store, q.prompt, blocks, hashes)
             && |q.prompt| <= Start(w.store.cache.blockSize, w.store.pool.width)
    ensures WorldOk(Mount(w, id, blocks, hashes))
  {
    hide SeqOk, Tight, PoolOk, CacheOk, Coupled, IsMatch, Mounted, TouchAll, Start, SharedPinned, NoDup;
    var s, q := w.store, w.seqs[id];
    OfWorld(w, id);
    InTable(s, q);
    NotEmpty(s, q);
    MountPool(s, q.row, blocks, hashes, q.prompt);
    var w1 := Mount(w, id, blocks, hashes);
    MountedSeq(s, w1.store, q, blocks, hashes);
    forall i | i in w.seqs && i != id
      ensures SeqOk(w1.store, w.seqs[i]) && Row(w1.store, w.seqs[i]) == Row(s, w.seqs[i])
      ensures Tight(s, w.seqs[i]) ==> Tight(w1.store, w.seqs[i])
    {
      InTable(s, w.seqs[i]);
      StorePool(w1.store);
      SeqSamePins(s, w1.store, w.seqs[i]);
    }
    MountOwnRows(w, w1, id);
  }

  lemma NotEmpty(s: Store, q: Sequence)
    requires SeqOk(s, q)
    ensures q.prompt != [] && (!q.complete ==> q.generated == [])
  {
    hide RowKnown, Start;
  }

  lemma MountOwnRows(w: World, w1: World, id: nat)
    requires OwnRows(w.store, w.seqs) && id in w.seqs && w1.store.pool.busy == w.store.pool.busy
    requires w1.seqs.Keys == w.seqs.Keys && forall i :: i in w.seqs ==> w1.seqs[i].row == w.seqs[i].row
    ensures OwnRows(w1.store, w1.seqs)
  {
    forall r | 0 <= r < |w1.store.pool.busy| && w1.store.pool.busy[r] ensures exists i :: i in w1.seqs && w1.seqs[i].row == r {
      var i :| i in w.seqs && w.seqs[i].row == r;
      assert i in w1.seqs && w1.seqs[i].row == r;
    }
  }

  lemma MountTrue(w1: World, q: Sequence, blocks: seq<nat>)
    requires Row(w1.store, q) == blocks && !q.complete && q.generated == []
    requires CellsTrue(w1.kv, w1.store.cache.blockSize, blocks, q.prompt, q.progress)
    ensures SeqTrue(w1, q)
  {
    assert Tokens(q) == q.prompt;
  }

  // ---------------------------------------------------------------- truncation and retirement

  // A preempted sequence keeps its first blocks. A cut into the prompt restarts
  // prefill there and drops what was generated; a later cut drops the generated
  // tokens behind it.
  function TruncatedSeq(q: Sequence, size: nat, keep: nat): Sequence {
    var cut := Start(size, keep);
    var q1 := q.(recorded := if q.recorded > keep then keep else q.recorded);
    if cut < |q.prompt| then q1.(progress := cut, complete := false, generated := [])
    else if |q.generated| > cut - |q.prompt| then q1.(generated := q.generated[..cut - |q.prompt|])
    else q1
  }

  function Truncate(w: World, id: nat, keep: nat): World
    requires id in w.seqs && Shape(w.store.pool) && w.seqs[id].row < |w.store.pool.tables|
  {
    w.(store := w.store.(pool := FreeFrom(w.store.pool, w.seqs[id].row, keep)),
       seqs := w.seqs[id := TruncatedSeq(w.seqs[id], w.store.cache.blockSize, keep)])
  }

  // All blocks of a finished sequence are given up, and its row.
  function Finish(w: World, id: nat): World
    requires id in w.seqs && Shape(w.store.pool) && w.seqs[id].row < |w.store.pool.tables|
  {
    w.(store := w.store.(pool := FreeFrom(w.store.pool, w.seqs[id].row, 0)),
       seqs := w.seqs - {id},
       growing := if w.growing == Some(id) then None else w.growing)
  }

  lemma CountPrefix(row: seq<nat>, k: nat, b: nat)
    requires k <= |row|
    ensures Count(row[..k], b) <= Count(row, b)
  {
    assert row == row[..k] + row[k..];
  }

  // Shortening a row takes references away and adds none.
  lemma CutStore(s: Store, r: nat, keep: nat)
    requires StoreOk(s) && r < |s.pool.tables| && keep <= |s.pool.tables[r]|
    ensures var p := FreeFrom(s.pool, r, keep);
            && StoreOk(s.(pool := p)) && PoolOk(p)
            && p.tables == s.pool.tables[r := s.pool.tables[r][..keep]]
            && p.cached == s.pool.cached && |p.refs| == |s.pool.refs| && p.width == s.pool.width
            && p.busy == s.pool.busy[r := s.pool.busy[r] && keep > 0]
            && (SharedPinned(s.pool) ==> SharedPinned(p))
  {
    hide CacheOk, Coupled, Inv;
    StorePool(s);
    FreeStore(s, r, keep);
    FreeFromKeeps(s.pool, r, keep);
    var p := FreeFrom(s.pool, r, keep);
    FewerRefs(s.pool, p, r, keep);
  }

  lemma FewerRefs(p: Pool, p1: Pool, r: nat, keep: nat)
    requires PoolOk(p) && PoolOk(p1) && r < |p.tables| && keep <= |p.tables[r]|
    requires p1.tables == p.tables[r := p.tables[r][..keep]] && |p1.refs| == |p.refs| && p1.cached == p.cached
    ensures SharedPinned(p) ==> SharedPinned(p1)
  {
    hide Occurrences, Count;
    forall b | 0 <= b < |p.refs| ensures p1.refs[b] <= p.refs[b] {
      assert Accounted(p, b) && Accounted(p1, b);
      OccurrencesUpdate(p.tables, r, p.tables[r][..keep], b);
      CountPrefix(p.tables[r], keep, b);
    }
  }

  lemma CutSeq(s: Store, t: Store, q: Sequence, keep: nat)
    requires StoreOk(s) && SeqOk(s, q) && Tight(s, q) && 1 <= keep < |Row(s, q)| && PoolOk(t.pool)
    requires t.pool.tables == s.pool.tables[q.row := Row(s, q)[..keep]] && t.pool.cached == s.pool.cached
    requires |t.pool.busy| == |t.pool.tables| && t.pool.busy[q.row] && t.cache == s.cache
    ensures var q1 := TruncatedSeq(q, s.cache.blockSize, keep);
            && SeqOk(t, q1) && Tight(t, q1) && Row(t, q1) == Row(s, q)[..keep]
            && Committed(q1) <= Committed(q) && |Tokens(q1)| >= Committed(q1)
            && Tokens(q1) <= Tokens(q)
  {
    hide StoreOk, PoolOk, RowKnown, Known, Start, Shielded;
    var size, q1, row := s.cache.blockSize, TruncatedSeq(q, s.cache.blockSize, keep), Row(s, q);
    CutKnown(s, t, q, keep);
    StartUpTo(size, keep, |row| - 1);
    StartUpTo(size, keep - 1, keep);
    if q.recorded > keep {
      StartUpTo(size, keep, q.recorded);
    } else {
      StartUpTo(size, q.recorded, keep);
    }
    CacheSize(s);
    CutShielded(s, t, q, q1, keep);
    CutTokens(q, size, keep);
  }

  lemma CutTokens(q: Sequence, size: nat, keep: nat)
    ensures Tokens(TruncatedSeq(q, size, keep)) <= Tokens(q)
  {}

  lemma CutKnown(s: Store, t: Store, q: Sequence, keep: nat)
    requires SeqOk(s, q) && PoolOk(t.pool) && keep <= |Row(s, q)|
    requires t.pool.tables == s.pool.tables[q.row := Row(s, q)[..keep]] && t.pool.cached == s.pool.cached
    requires t.cache == s.cache
    ensures RowKnown(t, q.prompt, Row(s, q)[..keep])
  {
    hide Start, Chain, PoolOk, Shielded;
    forall i | 0 <= i < keep ensures Known(t, q.prompt, Row(s, q)[..keep], i) {
      assert Known(s, q.prompt, Row(s, q), i);
    }
    KnownRow(t, q.row, q.prompt);
  }

  lemma CutShielded(s: Store, t: Store, q: Sequence, q1: Sequence, keep: nat)
    requires Shielded(s, q) && keep <= |Row(s, q)| && Row(t, q1) == Row(s, q)[..keep]
    requires t.pool.cached == s.pool.cached && t.cache == s.cache && q1.prompt == q.prompt
    requires q1.progress == q.progress || q1.progress == Start(s.cache.blockSize, keep)
    ensures Shielded(t, q1)
  {
    hide Start;
    forall i | 0 <= i < keep && Pinned(t, Row(t, q1)[i])
      ensures Start(s.cache.blockSize, i + 1) <= q1.progress && Start(s.cache.blockSize, i + 1) < |q1.prompt|
    {
      assert Row(s, q)[i] == Row(t, q1)[i];
      StartUpTo(s.cache.blockSize, i + 1, keep);
    }
  }

  // Fewer positions of a shorter row, same tokens.
  lemma FewerCells(kv: Kv, size: nat, row: seq<nat>, tokens: seq<int32>, n: nat, row1: seq<nat>, tokens1: seq<int32>, n1: nat)
    requires CellsTrue(kv, size, row, tokens, n) && row1 <= row && n1 <= n && n1 <= |tokens1| && tokens1 <= tokens
    ensures CellsTrue(kv, size, row1, tokens1, n1)
  {
    hide Start;
    forall i, o | 0 <= i < |row1| && Inside(size, n1, i, o) ensures CellTrue(kv, size, row1, tokens1, i, o) {
      assert Inside(size, n, i, o);
      assert CellTrue(kv, size, row, tokens, i, o);
      SamePart(tokens1, tokens, n1, Start(size, i) + o + 1);
    }
  }

  // What a sequence has left after a cut to `keep` blocks: a cut into the prompt
  // leaves the prompt, computed up to the cut; a later one leaves every token
  // up to the cut, with the prefill as far as it was.
  ghost predicate CutTo(w: World, w1: World, id: nat, keep: nat)
    requires id in w.seqs && id in w1.seqs && keep <= |Row(w.store, w.seqs[id])|
  {
    var q, q1, cut := w.seqs[id], w1.seqs[id], Start(w.store.cache.blockSize, keep);
    && q1.prompt == q.prompt && Row(w1.store, q1) == Row(w.store, q)[..keep]
    && q1.recorded == (if q.recorded < keep then q.recorded else keep)
    && (if cut < |q.prompt| then Tokens(q1) == q.prompt && Committed(q1) == cut
        else Tokens(q1) == Tokens(q)[..if |Tokens(q)| < cut then |Tokens(q)| else cut]
             && q1.progress == q.progress && q1.complete == q.complete)
  }

  lemma TruncateCuts(w: World, id: nat, keep: nat)
    requires id in w.seqs && keep <= |Row(w.store, w.seqs[id])| && Shape(w.store.pool)
    requires w.seqs[id].row < |w.store.pool.tables|
    requires Row(Truncate(w, id, keep).store, Truncate(w, id, keep).seqs[id]) == Row(w.store, w.seqs[id])[..keep]
    requires !w.seqs[id].complete ==> w.seqs[id].generated == []
    ensures CutTo(w, Truncate(w, id, keep), id, keep)
  {
    hide Row, Start;
    var q, cut := w.seqs[id], Start(w.store.cache.blockSize, keep);
    if cut >= |q.prompt| && |Tokens(q)| > cut {
      assert Tokens(q)[..cut] == q.prompt + q.generated[..cut - |q.prompt|];
    }
  }

  lemma TruncateKeeps(w: World, id: nat, keep: nat)
    requires WorldOk(w) && id in w.seqs && w.growing != Some(id) && 1 <= keep < |Row(w.store, w.seqs[id])|
    ensures Shape(w.store.pool) && w.seqs[id].row < |w.store.pool.tables|
    ensures CutTo(w, Truncate(w, id, keep), id, keep)
    ensures WorldOk(Truncate(w, id, keep))
    ensures ContentOk(w) ==> ContentOk(Truncate(w, id, keep))
  {
    hide SeqOk, Tight, EntryTrue, CellsTrue, StoreOk, SharedPinned, OwnRows, FreeFrom, TruncatedSeq;
    var s, q := w.store, w.seqs[id];
    StorePool(s);
    InTable(s, q);
    CutStore(s, q.row, keep);
    var w1 := Truncate(w, id, keep);
    var t := w1.store;
    CutSeq(s, t, q, keep);
    NotEmpty(s, q);
    TruncateCuts(w, id, keep);
    hide CutTo;
    assert t.pool.busy == s.pool.busy;
    assert TruncatedSeq(q, s.cache.blockSize, keep).row == q.row && w1.seqs[id].prompt == q.prompt by {
      SameIdentity(q, s.cache.blockSize, keep);
    }
    forall i | i in w.seqs && i != id
      ensures SeqOk(t, w.seqs[i]) && Row(t, w.seqs[i]) == Row(s, w.seqs[i])
      ensures Tight(s, w.seqs[i]) ==> Tight(t, w.seqs[i])
    {
      InTable(s, w.seqs[i]);
      RowsDiffer(w, i, id);
      SeqSamePins(s, t, w.seqs[i]);
    }
    MountOwnRows(w, w1, id);
    if ContentOk(w) {
      EntriesStay(w, w1);
      SeqsStay(w, w1, id);
      assert SeqTrue(w, q);
      FewerCells(w.kv, s.cache.blockSize, Row(s, q), Tokens(q), Committed(q),
                 Row(t, w1.seqs[id]), Tokens(w1.seqs[id]), Committed(w1.seqs[id]));
    }
  }

  lemma SameIdentity(q: Sequence, size: nat, keep: nat)
    ensures TruncatedSeq(q, size, keep).row == q.row && TruncatedSeq(q, size, keep).prompt == q.prompt
  {}

  lemma RowsDiffer(w: World, i: nat, j: nat)
    requires WorldOk(w) && i in w.seqs && j in w.seqs && i != j
    ensures w.seqs[i].row != w.seqs[j].row
  {
    hide SeqOk, Tight, StoreOk;
  }

  lemma FinishKeeps(w: World, id: nat)
    requires WorldOk(w) && id in w.seqs
    ensures Shape(w.store.pool) && w.seqs[id].row < |w.store.pool.tables|
    ensures WorldOk(Finish(w, id))
    ensures ContentOk(w) ==> ContentOk(Finish(w, id))
  {
    hide SeqOk, Tight, EntryTrue, SeqTrue, StoreOk, SharedPinned, FreeFrom;
    var s, q := w.store, w.seqs[id];
    StorePool(s);
    InTable(s, q);
    CutStore(s, q.row, 0);
    var w1 := Finish(w, id);
    var t := w1.store;
    forall i | i in w1.seqs
      ensures SeqOk(t, w.seqs[i]) && Row(t, w.seqs[i]) == Row(s, w.seqs[i])
      ensures Tight(s, w.seqs[i]) ==> Tight(t, w.seqs[i])
    {
      InTable(s, w.seqs[i]);
      RowsDiffer(w, i, id);
      SeqSamePins(s, t, w.seqs[i]);
    }
    forall r | 0 <= r < |t.pool.busy| && t.pool.busy[r] ensures exists i :: i in w1.seqs && w1.seqs[i].row == r {
      var i :| i in w.seqs && w.seqs[i].row == r;
      assert i in w1.seqs && w1.seqs[i].row == r;
    }
    if ContentOk(w) {
      EntriesStay(w, w1);
      SeqsStay(w, w1, id);
    }
  }
}
