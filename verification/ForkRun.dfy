/**
 Two prompts that fork do lead to wrong contents: a run, built step by step, in
 which a sequence ends up with KV computed from the other prompt.
 */
module ForkRuns {
  import opened Wrappers
  import opened Bytes
  import opened BlockPool
  import opened KvStore
  import opened PrefixMatching
  import opened PrefixRecording
  import opened Serving
  import opened ServingSteps
  import opened ServingRuns
  import Fnv
  import ZeroHash

  // ---------------------------------------------------------------- reaching a state

  ghost predicate Reaches(w0: World, w: World) {
    exists ws, acts :: IsRun(ws, acts) && ws[0] == w0 && ws[|acts|] == w
  }

  lemma ReachesSelf(w: World)
    ensures Reaches(w, w)
  {
    hide StepOf;
    assert IsRun([w], []);
  }

  lemma ReachesStep(w0: World, w: World, a: Action, w1: World)
    requires Reaches(w0, w) && StepOf(w, a, w1)
    ensures Reaches(w0, w1)
  {
    hide StepOf;
    var ws, acts :| IsRun(ws, acts) && ws[0] == w0 && ws[|acts|] == w;
    var ws1, acts1 := ws + [w1], acts + [a];
    forall k | 0 <= k < |acts1| ensures StepOf(ws1[k], acts1[k], ws1[k + 1]) {
      if k < |acts| {
        assert StepOf(ws[k], acts[k], ws[k + 1]);
      }
    }
    assert IsRun(ws1, acts1);
  }

  // A state of the run that is in order so far.
  ghost predicate At(w0: World, w: World) {
    Reaches(w0, w) && WorldOk(w) && ContentOk(w)
  }

  // The other sequences and their rows, and the sizes, are as they were.
  ghost predicate Aside(w: World, w1: World, id: nat) {
    && (forall j :: j in w.seqs && j != id ==>
          j in w1.seqs && w1.seqs[j] == w.seqs[j] && Row(w1.store, w.seqs[j]) == Row(w.store, w.seqs[j]))
    && (forall j :: j in w1.seqs && j != id ==> j in w.seqs)
    && w1.store.cache.blockSize == w.store.cache.blockSize && w1.store.cache.maxEntries == w.store.cache.maxEntries
    && w1.store.pool.width == w.store.pool.width
  }

  lemma AsideChain(w: World, w1: World, w2: World, id: nat)
    requires Aside(w, w1, id) && Aside(w1, w2, id)
    ensures Aside(w, w2, id)
  {}

  // ---------------------------------------------------------------- admission into an empty cache

  lemma AdmitFresh(w0: World, w: World, id: nat, prompt: seq<int32>, row: nat) returns (w1: World)
    requires At(w0, w) && id !in w.seqs && prompt != [] && w.store.cache.entries == map[]
    requires |prompt| <= Start(w.store.cache.blockSize, w.store.pool.width)
    requires row < |w.store.pool.busy| && !w.store.pool.busy[row] && forall r :: 0 <= r < row ==> w.store.pool.busy[r]
    ensures At(w0, w1) && Aside(w, w1, id) && w1.growing == w.growing && w1.seen == w.seen + {prompt}
    ensures id in w1.seqs && w1.seqs[id] == Sequence(prompt, row, 0, false, [], 0) && Row(w1.store, w1.seqs[id]) == []
    ensures w1.store.cache.entries == map[] && w1.store.pool == w.store.pool.(busy := w.store.pool.busy[row := true])
  {
    hide SeqOk, Tight, EntryTrue, SeqTrue, PoolOk, CacheOk, Coupled, OwnRows, SharedPinned, Start, Hit, Chain;
    var s := w.store;
    OfSize(w);
    FirstIdleIs(s.pool.busy, row);
    NoBlocksAsked(s, row);
    var w2 := Enter(w, id, prompt, row);
    EnterKeeps(w, id, prompt, row);
    NothingToMatch(w2.store, prompt);
    EnteredRow(w2, id, row);
    w1 := Mount(w2, id, [], []);
    MountedNothing(w2, id);
    assert AdmitStep(w, id, prompt, [], [], w1);
    assert StepOf(w, Admit(id, prompt, [], []), w1);
    ReachesStep(w0, w, Admit(id, prompt, [], []), w1);
    NoRepeats(prompt, s.cache.blockSize);
    AdmitKeeps(w, id, prompt, [], [], w1);
    EnterAside(w, w2, id, row);
    StatsOnly(w2, w1);
  }

  lemma NoBlocksAsked(s: Store, row: nat)
    requires StoreOk(s) && row == FirstIdle(s.pool.busy) && row < |s.pool.busy|
    ensures AllocateBlocks(s, 0) == (s.(pool := s.pool.(busy := s.pool.busy[row := true])), row)
  {
    hide StoreOk;
    ReclaimKeeps(s, 0);
  }

  lemma NothingToMatch(s: Store, prompt: seq<int32>)
    requires s.cache.blockSize > 0 && s.cache.entries == map[] && prompt != []
    ensures IsMatch(s, prompt, [], [])
  {
    hide Chain, BlockOf;
    if CacheableBlocks(|prompt|, s.cache.blockSize) > 0 {
      CacheableFits(prompt, s.cache.blockSize, 0);
    }
  }

  lemma EnteredRow(w: World, id: nat, row: nat)
    requires WorldOk(w) && id in w.seqs && w.seqs[id].row == row
    ensures row < |w.store.pool.tables|
  {
    hide StoreOk;
    OfWorld(w, id);
  }

  lemma MountedNothing(w: World, id: nat)
    requires id in w.seqs && w.seqs[id].row < |w.store.pool.tables| && w.seqs[id].progress == 0
    ensures var w1 := Mount(w, id, [], []);
            w1 == w.(store := w.store.(cache := w.store.cache.(stats := w1.store.cache.stats)))
  {
    assert w.seqs[id := w.seqs[id]] == w.seqs;
  }

  lemma NoRepeats(prompt: seq<int32>, size: nat)
    ensures !Repeats(prompt, size, 0)
  {
    hide Chain, BlockOf;
  }

  lemma EnterAside(w: World, w1: World, id: nat, row: nat)
    requires WorldOk(w) && id !in w.seqs && row < |w.store.pool.busy| && id in w1.seqs && w1 == Enter(w, id, w1.seqs[id].prompt, row)
    ensures Aside(w, w1, id)
  {
    hide WorldOk;
  }

  lemma StatsOnly(w: World, w1: World)
    requires w1 == w.(store := w.store.(cache := w.store.cache.(stats := w1.store.cache.stats)))
    ensures ContentOk(w) ==> ContentOk(w1)
  {
    hide EntryFrom, CellsTrue;
    if ContentOk(w) {
      EntriesStay(w, w1);
      forall i | i in w1.seqs ensures SeqTrue(w1, w1.seqs[i]) {
        assert SeqTrue(w, w.seqs[i]);
      }
    }
  }

  // ---------------------------------------------------------------- growing and prefilling

  lemma GrowFree(w0: World, w: World, id: nat) returns (w1: World)
    requires At(w0, w) && id in w.seqs && (w.growing == None || w.growing == Some(id))
    requires w.store.pool.free != [] && |Row(w.store, w.seqs[id])| < w.store.pool.width
    ensures At(w0, w1) && Aside(w, w1, id) && w1.growing == Some(id) && w1.seqs == w.seqs && w1.seen == w.seen
    ensures w1.store.cache == w.store.cache && w1.store.pool.busy == w.store.pool.busy
    ensures |w1.store.pool.free| == |w.store.pool.free| - 1
    ensures |Row(w1.store, w.seqs[id])| == |Row(w.store, w.seqs[id])| + 1
    ensures Row(w.store, w.seqs[id]) <= Row(w1.store, w.seqs[id])
    ensures w1.store.pool.cached == w.store.pool.cached
    ensures w.store.pool.free[|w.store.pool.free| - 1] < |w.store.pool.refs|
    ensures w1.store.pool.refs == w.store.pool.refs[w.store.pool.free[|w.store.pool.free| - 1] := 1]
  {
    hide WorldOk, ContentOk, StoreOk, Inv, ReclaimFor, Start, SeqOk;
    var s, q := w.store, w.seqs[id];
    OfWorld(w, id);
    ReclaimKeeps(s, 1);
    StorePool(s);
    LastFree(s.pool);
    TakeIsOne(s.pool, q.row);
    w1 := Grow(w, id);
    assert w1.store == s.(pool := TakeOne(s.pool, q.row));
    assert StepOf(w, GrowRow(id), w1);
    ReachesStep(w0, w, GrowRow(id), w1);
    GrowKeeps(w, id);
    OneRowAside(w, w1, id);
  }

  // Only one row of the tables has changed.
  ghost predicate OneRow(p: Pool, p1: Pool, row: nat) {
    && |p1.tables| == |p.tables| && p1.width == p.width
    && forall r :: 0 <= r < |p.tables| && r != row ==> p1.tables[r] == p.tables[r]
  }

  lemma OneRowAside(w: World, w1: World, id: nat)
    requires WorldOk(w) && id in w.seqs && OneRow(w.store.pool, w1.store.pool, w.seqs[id].row)
    requires forall j :: j in w.seqs && j != id ==> j in w1.seqs && w1.seqs[j] == w.seqs[j]
    requires forall j :: j in w1.seqs && j != id ==> j in w.seqs
    requires w1.store.cache.blockSize == w.store.cache.blockSize && w1.store.cache.maxEntries == w.store.cache.maxEntries
    ensures Aside(w, w1, id)
  {
    hide WorldOk;
    forall j | j in w.seqs && j != id ensures Row(w1.store, w.seqs[j]) == Row(w.store, w.seqs[j]) {
      RowsDiffer(w, j, id);
    }
  }

  lemma {:induction false} GrowMany(w0: World, w: World, id: nat, n: nat) returns (w1: World)
    requires At(w0, w) && id in w.seqs && (w.growing == None || w.growing == Some(id))
    requires n <= |w.store.pool.free| && |Row(w.store, w.seqs[id])| + n <= w.store.pool.width
    ensures At(w0, w1) && Aside(w, w1, id) && w1.seqs == w.seqs && w1.seen == w.seen
    ensures w1.growing == if n == 0 then w.growing else Some(id)
    ensures w1.store.cache == w.store.cache && w1.store.pool.busy == w.store.pool.busy
    ensures |w1.store.pool.free| == |w.store.pool.free| - n
    ensures |Row(w1.store, w.seqs[id])| == |Row(w.store, w.seqs[id])| + n
    ensures Row(w.store, w.seqs[id]) <= Row(w1.store, w.seqs[id])
    decreases n
  {
    hide At, Row;
    if n == 0 {
      return w;
    }
    var w2 := GrowFree(w0, w, id);
    w1 := GrowMany(w0, w2, id, n - 1);
    AsideChain(w, w2, w1, id);
  }

  // n more blocks of the prompt: allocated and computed.
  lemma Serve(w0: World, w: World, id: nat, m: nat, n: nat) returns (w1: World)
    requires At(w0, w) && id in w.seqs && w.growing == None
    requires |Row(w.store, w.seqs[id])| == m && w.seqs[id].progress == Start(w.store.cache.blockSize, m)
    requires !w.seqs[id].complete && Start(w.store.cache.blockSize, m + n) < |w.seqs[id].prompt|
    requires n <= |w.store.pool.free| && m + n <= w.store.pool.width
    ensures At(w0, w1) && Aside(w, w1, id) && w1.growing == None && w1.seen == w.seen
    ensures w1.seqs == w.seqs[id := w.seqs[id].(progress := Start(w.store.cache.blockSize, m + n))]
    ensures w1.store.cache == w.store.cache && w1.store.pool.busy == w.store.pool.busy
    ensures |w1.store.pool.free| == |w.store.pool.free| - n
    ensures |Row(w1.store, w1.seqs[id])| == m + n && Row(w.store, w.seqs[id]) <= Row(w1.store, w1.seqs[id])
  {
    hide WorldOk, ContentOk, Start;
    var size, q := w.store.cache.blockSize, w.seqs[id];
    OfSize(w);
    if n == 0 {
      assert w.seqs[id := q] == w.seqs;
      return w;
    }
    hide At;
    hide Aside, Row;
    var w2 := GrowMany(w0, w, id, n);
    AsideSizes(w, w2, id);
    StartUpTo(size, m, m + n - 1);
    StartUpTo(size, m + n - 1, m + n);
    CoversChunk(w2, id, m + n);
    w1 := PrefillTo(w0, w2, id, Start(size, m + n));
    SameStoreRow(w2, w1, w2.seqs[id], w1.seqs[id]);
    Prefilled(w2, w1, id);
    AsideChain(w, w2, w1, id);
  }

  lemma CoversChunk(w: World, id: nat, n: nat)
    requires id in w.seqs && |Row(w.store, w.seqs[id])| == n && n > 0
    requires w.growing == None || w.growing == Some(id)
    requires var q, size := w.seqs[id], w.store.cache.blockSize;
             !q.complete && Start(size, n - 1) < Start(size, n) && q.progress < Start(size, n) <= |q.prompt|
    ensures MayPrefill(w, id, Start(w.store.cache.blockSize, n) - w.seqs[id].progress)
  {
    hide Start;
  }

  lemma SameStoreRow(w: World, w1: World, q: Sequence, q1: Sequence)
    requires w1.store == w.store && q1.row == q.row
    ensures Row(w1.store, q1) == Row(w.store, q)
  {}

  lemma PrefillTo(w0: World, w: World, id: nat, end: nat) returns (w1: World)
    requires At(w0, w) && id in w.seqs && w.seqs[id].progress < end < |w.seqs[id].prompt|
    requires MayPrefill(w, id, end - w.seqs[id].progress)
    ensures At(w0, w1) && w1.store == w.store && w1.growing == None && w1.seen == w.seen
    ensures w1.seqs == w.seqs[id := w.seqs[id].(progress := end)]
  {
    hide WorldOk, ContentOk, Start, KvAfter, OthersUntouched;
    var take: nat := end - w.seqs[id].progress;
    PrefillKeeps(w, id, take);
    w1 := Prefill(w, id, take);
    assert StepOf(w, PrefillChunk(id, take), w1);
    ReachesStep(w0, w, PrefillChunk(id, take), w1);
  }

  lemma Prefilled(w: World, w1: World, id: nat)
    requires id in w.seqs && id in w1.seqs && w1.seqs == w.seqs[id := w1.seqs[id]] && w1.store == w.store
    ensures Aside(w, w1, id)
  {}

  // ---------------------------------------------------------------- retiring

  lemma RetireOne(w0: World, w: World, id: nat) returns (w1: World)
    requires At(w0, w) && id in w.seqs && (w.growing == None || w.growing == Some(id))
    ensures At(w0, w1) && Aside(w, w1, id) && w1.growing == None && w1.seqs == w.seqs - {id} && w1.seen == w.seen
    ensures w.seqs[id].row < |w.store.pool.busy| && w1.store.pool.busy == w.store.pool.busy[w.seqs[id].row := false]
    ensures w1.store.cache == w.store.cache && w.store.pool.free <= w1.store.pool.free
    ensures Below(Row(w.store, w.seqs[id]), |w.store.pool.refs|) && |w.store.pool.cached| == |w.store.pool.refs|
    ensures |w1.store.pool.free| == |w.store.pool.free| + Reclaimable(w.store.pool, Row(w.store, w.seqs[id]))
  {
    hide WorldOk, ContentOk, StoreOk, FreeFrom, Inv, SeqOk;
    var q := w.seqs[id];
    OfWorld(w, id);
    StorePool(w.store);
    StoreSizes(w.store);
    FreeFromKeeps(w.store.pool, q.row, 0);
    w1 := Finish(w, id);
    assert StepOf(w, Retire(id), w1);
    ReachesStep(w0, w, Retire(id), w1);
    FinishKeeps(w, id);
    assert w.store.pool.tables[q.row][0..] == Row(w.store, q);
    OneRowAside(w, w1, id);
  }

  // ---------------------------------------------------------------- recording

  // The entry under h was made for block j of the prompt, from this row.
  ghost predicate MadeAt(entries: map<u64, Entry>, prompt: seq<int32>, size: nat, row: seq<nat>, h: u64, j: nat) {
    && Fits(prompt, size, j) && j < |row| && h == Chain(prompt, size, j + 1)
    && h in entries && entries[h] == EntryFor(prompt, size, j, row[j])
  }

  // The next block has its entry afterwards, made now or before.
  ghost predicate AddsOne(w: World, w1: World, q: Sequence) {
    var size, row := w.store.cache.blockSize, Row(w.store, q);
    && Fits(q.prompt, size, q.recorded) && q.recorded < |row|
    && var h := Chain(q.prompt, size, q.recorded + 1);
       if h in w.store.cache.entries then w1.store == w.store
       else w1.store.cache.entries == w.store.cache.entries[h := EntryFor(q.prompt, size, q.recorded, row[q.recorded])]
  }

  lemma RecordOne(w0: World, w: World, id: nat) returns (w1: World)
    requires At(w0, w) && id in w.seqs && MayRecord(w, id) && |w.store.cache.entries| < w.store.cache.maxEntries
    ensures At(w0, w1) && Aside(w, w1, id) && w1.growing == w.growing && w1.seen == w.seen && w1.kv == w.kv
    ensures w1.seqs == w.seqs[id := w.seqs[id].(recorded := w.seqs[id].recorded + 1)]
    ensures Row(w1.store, w1.seqs[id]) == Row(w.store, w.seqs[id])
    ensures w1.store.pool == w.store.pool.(cached := w1.store.pool.cached)
    ensures AddsOne(w, w1, w.seqs[id])
  {
    hide WorldOk, ContentOk, StoreOk, Start, Chain, SeqOk, RowKnown, BlockOf;
    var s, q := w.store, w.seqs[id];
    OfWorld(w, id);
    SeqKnown(s, q);
    CacheableFits(q.prompt, s.cache.blockSize, q.recorded);
    RoomAlready(s);
    RecordNextKeeps(w, id);
    w1 := RecordNext(w, id);
    assert StepOf(w, RecordBlock(id), w1);
    ReachesStep(w0, w, RecordBlock(id), w1);
    OneRowAside(w, w1, id);
  }

  lemma RoomAlready(s: Store)
    requires StoreOk(s) && |s.cache.entries| < s.cache.maxEntries
    ensures MakeRoom(s) == s && |s.cache.entries| < 2 * s.cache.maxEntries
  {
    hide StoreOk;
  }

  // What recording n blocks adds to the cache.
  ghost predicate RecordedMany(w: World, w1: World, id: nat, n: nat)
    requires id in w.seqs
  {
    var q, size, row, entries, entries1 :=
      w.seqs[id], w.store.cache.blockSize, Row(w.store, w.seqs[id]), w.store.cache.entries, w1.store.cache.entries;
    && (forall h :: h in entries ==> h in entries1 && entries1[h] == entries[h])
    && (forall h :: h in entries1 && h !in entries ==>
          exists j :: q.recorded <= j < q.recorded + n && MadeAt(entries1, q.prompt, size, row, h, j))
    && (forall j :: q.recorded <= j < q.recorded + n ==> HasEntry(entries1, q.prompt, size, j))
    && |entries1| <= |entries| + n
  }

  ghost predicate HasEntry(entries: map<u64, Entry>, prompt: seq<int32>, size: nat, j: nat) {
    Fits(prompt, size, j) && Chain(prompt, size, j + 1) in entries
  }

  ghost predicate AllThere(c: Cache, q: Sequence, n: nat) {
    forall j :: q.recorded <= j < q.recorded + n ==> HasEntry(c.entries, q.prompt, c.blockSize, j)
  }

  ghost predicate MayRecordMany(w: World, q: Sequence, n: nat) {
    var size := w.store.cache.blockSize;
    && size > 0 && q.recorded + n <= CacheableBlocks(|q.prompt|, size) && q.recorded + n <= |Row(w.store, q)|
    && Start(size, q.recorded + n) <= q.progress <= |q.prompt|
  }

  lemma OneOfMany(w: World, id: nat, n: nat)
    requires id in w.seqs && n > 0 && MayRecordMany(w, w.seqs[id], n)
    ensures MayRecord(w, id)
  {
    var q := w.seqs[id];
    StartUpTo(w.store.cache.blockSize, q.recorded + 1, q.recorded + n);
  }

  lemma RestOfMany(w: World, w1: World, q: Sequence, q1: Sequence, n: nat)
    requires n > 0 && MayRecordMany(w, q, n) && q1 == q.(recorded := q.recorded + 1)
    requires Row(w1.store, q1) == Row(w.store, q) && w1.store.cache.blockSize == w.store.cache.blockSize
    ensures MayRecordMany(w1, q1, n - 1)
  {
    hide Row;
    assert q.recorded + 1 + (n - 1) == q.recorded + n;
  }

  lemma {:induction false} RecordMany(w0: World, w: World, id: nat, n: nat) returns (w1: World)
    requires At(w0, w) && id in w.seqs && |w.store.cache.entries| + n <= w.store.cache.maxEntries
    requires MayRecordMany(w, w.seqs[id], n)
    ensures At(w0, w1) && Aside(w, w1, id) && w1.growing == w.growing && w1.seen == w.seen && w1.kv == w.kv
    ensures w1.seqs == w.seqs[id := w.seqs[id].(recorded := w.seqs[id].recorded + n)]
    ensures Row(w1.store, w1.seqs[id]) == Row(w.store, w.seqs[id])
    ensures w1.store.pool == w.store.pool.(cached := w1.store.pool.cached)
    ensures RecordedMany(w, w1, id, n)
    ensures AllThere(w.store.cache, w.seqs[id], n) ==> w1.store == w.store
    decreases n
  {
    hide At, Row, MayRecord, MayRecordMany, RecordedMany, HasEntry, AddsOne, Aside, AllThere;
    var q := w.seqs[id];
    if n == 0 {
      assert w.seqs[id := q] == w.seqs;
      NothingRecorded(w, id);
      return w;
    }
    OneOfMany(w, id, n);
    var w2 := RecordOne(w0, w, id);
    EntryAdded(w, w2, id);
    AsideSizes(w, w2, id);
    assert |w2.store.cache.entries| <= |w.store.cache.entries| + 1 by {
      AtMostMore(w, w2, id, 1);
    }
    RestOfMany(w, w2, q, w2.seqs[id], n);
    w1 := RecordMany(w0, w2, id, n - 1);
    AsideChain(w, w2, w1, id);
    RecordedMore(w, w2, w1, id, n);
    if AllThere(w.store.cache, q, n) {
      ThereFirst(w, q, n);
    }
  }

  lemma NothingRecorded(w: World, id: nat)
    requires id in w.seqs
    ensures RecordedMany(w, w, id, 0) && Aside(w, w, id)
  {}

  lemma AsideSizes(w: World, w1: World, id: nat)
    requires Aside(w, w1, id)
    ensures w1.store.cache.blockSize == w.store.cache.blockSize && w1.store.cache.maxEntries == w.store.cache.maxEntries
  {}

  lemma AtMostMore(w: World, w1: World, id: nat, n: nat)
    requires id in w.seqs && RecordedMany(w, w1, id, n)
    ensures |w1.store.cache.entries| <= |w.store.cache.entries| + n
  {}

  lemma ThereFirst(w: World, q: Sequence, n: nat)
    requires AllThere(w.store.cache, q, n) && n > 0
    ensures HasEntry(w.store.cache.entries, q.prompt, w.store.cache.blockSize, q.recorded)
    ensures AllThere(w.store.cache, q.(recorded := q.recorded + 1), n - 1)
  {
    hide HasEntry;
  }

  lemma EntryAdded(w: World, w1: World, id: nat)
    requires id in w.seqs && AddsOne(w, w1, w.seqs[id])
    ensures RecordedMany(w, w1, id, 1)
    ensures HasEntry(w.store.cache.entries, w.seqs[id].prompt, w.store.cache.blockSize, w.seqs[id].recorded) ==>
              w1.store == w.store
  {
    hide Start, Chain, BlockOf;
    var q, size := w.seqs[id], w.store.cache.blockSize;
    var h := Chain(q.prompt, size, q.recorded + 1);
    if h !in w.store.cache.entries {
      assert MadeAt(w1.store.cache.entries, q.prompt, size, Row(w.store, q), h, q.recorded);
    }
  }

  lemma RecordedMore(w: World, w1: World, w2: World, id: nat, n: nat)
    requires n > 0 && id in w.seqs && id in w1.seqs && RecordedMany(w, w1, id, 1) && RecordedMany(w1, w2, id, n - 1)
    requires w1.seqs[id] == w.seqs[id].(recorded := w.seqs[id].recorded + 1)
    requires Row(w1.store, w1.seqs[id]) == Row(w.store, w.seqs[id])
    requires w1.store.cache.blockSize == w.store.cache.blockSize
    ensures RecordedMany(w, w2, id, n)
  {
    hide Start, Chain, BlockOf, Fits, EntryFor, Row;
    var q, size, row := w.seqs[id], w.store.cache.blockSize, Row(w.store, w.seqs[id]);
    var e0, e1, e2 := w.store.cache.entries, w1.store.cache.entries, w2.store.cache.entries;
    forall h | h in e2 && h !in e0
      ensures exists j :: q.recorded <= j < q.recorded + n && MadeAt(e2, q.prompt, size, row, h, j)
    {
      if h in e1 {
        var j :| q.recorded <= j < q.recorded + 1 && MadeAt(e1, q.prompt, size, row, h, j);
        assert MadeAt(e2, q.prompt, size, row, h, j);
      } else {
        var j :| q.recorded + 1 <= j < q.recorded + n && MadeAt(e2, q.prompt, size, row, h, j);
      }
    }
    forall j | q.recorded <= j < q.recorded + n ensures HasEntry(e2, q.prompt, size, j) {
      if j == q.recorded {
        assert HasEntry(e1, q.prompt, size, j);
      }
    }
  }

  // ---------------------------------------------------------------- emptying the cache

  // No row uses any entry's block.
  ghost predicate AllEvictable(s: Store) {
    forall h :: h in s.cache.entries ==>
      s.cache.entries[h].block < |s.pool.refs| && s.pool.refs[s.cache.entries[h].block] == 0
  }

  lemma EvictsOne(s: Store)
    requires StoreOk(s) && s.pool.free == [] && AllEvictable(s) && s.cache.entries != map[]
    ensures var u := ReclaimFor(s, 1);
            && Evicting(s, u) && StoreOk(u) && |u.pool.free| == 1 && |u.cache.entries| < |s.cache.entries|
            && AllEvictable(u)
  {
    hide PoolOk, Coupled;
    var u := ReclaimFor(s, 1);
    EvictKeeps(s, 1);
    assert s.cache.entries.Keys != {};
    var h :| h in s.cache.entries.Keys;
    assert h in s.cache.entries && h in s.cache.lru;
    var j :| 0 <= j < |s.cache.lru| && s.cache.lru[j] == h;
    assert Evictable(s, j);
    if |u.cache.entries| >= |s.cache.entries| {
      EntriesSame(s, u);
      assert false;
    }
  }

  lemma StillEvictable(s: Store, row: nat)
    requires StoreOk(s) && AllEvictable(s) && s.pool.free != [] && row < |s.pool.tables|
    ensures s.pool.free[|s.pool.free| - 1] < |s.pool.refs|
    ensures AllEvictable(s.(pool := TakeOne(s.pool, row)))
  {
    hide Inv, CacheOk;
    LastFree(s.pool);
  }

  lemma GrowEvicting(w0: World, w: World, id: nat) returns (w1: World)
    requires At(w0, w) && id in w.seqs && (w.growing == None || w.growing == Some(id))
    requires w.store.pool.free == [] && w.store.cache.entries != map[] && AllEvictable(w.store)
    requires |Row(w.store, w.seqs[id])| < w.store.pool.width
    ensures At(w0, w1) && Aside(w, w1, id) && w1.growing == Some(id) && w1.seqs == w.seqs && w1.seen == w.seen
    ensures w1.store.pool.busy == w.store.pool.busy && w1.store.pool.free == []
    ensures |w1.store.cache.entries| < |w.store.cache.entries| && AllEvictable(w1.store)
    ensures |Row(w1.store, w.seqs[id])| == |Row(w.store, w.seqs[id])| + 1
  {
    hide WorldOk, ContentOk, StoreOk, Inv, ReclaimFor, Start, SeqOk, AllEvictable, Evicting;
    var s, q := w.store, w.seqs[id];
    OfWorld(w, id);
    EvictsOne(s);
    var u := ReclaimFor(s, 1);
    EvictingPool(s, u);
    EvictingSizes(s, u);
    StorePool(u);
    StillEvictable(u, q.row);
    TakeIsOne(u.pool, q.row);
    w1 := Grow(w, id);
    assert w1.store == u.(pool := TakeOne(u.pool, q.row));
    assert StepOf(w, GrowRow(id), w1);
    ReachesStep(w0, w, GrowRow(id), w1);
    GrowKeeps(w, id);
    OneRowAside(w, w1, id);
  }

  lemma EvictingSizes(s: Store, t: Store)
    requires Evicting(s, t)
    ensures t.cache.blockSize == s.cache.blockSize && t.cache.maxEntries == s.cache.maxEntries
  {
    hide StoreOk;
  }

  lemma GrowKeepsEvictable(w: World, w1: World)
    requires StoreOk(w.store) && AllEvictable(w.store) && w.store.pool.free != [] && w1.store.cache == w.store.cache
    requires w.store.pool.free[|w.store.pool.free| - 1] < |w.store.pool.refs|
    requires w1.store.pool.refs == w.store.pool.refs[w.store.pool.free[|w.store.pool.free| - 1] := 1]
    ensures AllEvictable(w1.store)
  {
    hide Inv, CacheOk;
    LastFree(w.store.pool);
  }

  // A sequence that grows far enough drives every entry out.
  lemma {:induction false} EmptyCache(w0: World, w: World, id: nat) returns (w1: World)
    requires At(w0, w) && id in w.seqs && (w.growing == None || w.growing == Some(id)) && AllEvictable(w.store)
    requires |Row(w.store, w.seqs[id])| + |w.store.pool.free| + |w.store.cache.entries| <= w.store.pool.width
    ensures At(w0, w1) && Aside(w, w1, id) && w1.seqs == w.seqs && w1.seen == w.seen
    ensures w1.growing == None || w1.growing == Some(id)
    ensures w1.store.pool.busy == w.store.pool.busy && w1.store.cache.entries == map[]
    ensures |w1.store.pool.free| + |Row(w1.store, w.seqs[id])| >= |w.store.pool.free| + |Row(w.store, w.seqs[id])|
    decreases |w.store.cache.entries|, |w.store.pool.free|
  {
    hide WorldOk, ContentOk, AllEvictable, StoreOk, Row, Reaches;
    if w.store.cache.entries == map[] {
      return w;
    }
    OfWorld(w, id);
    assert |w.store.cache.entries| > 0;
    var w2;
    if w.store.pool.free != [] {
      w2 := GrowFree(w0, w, id);
      GrowKeepsEvictable(w, w2);
    } else {
      w2 := GrowEvicting(w0, w, id);
    }
    w1 := EmptyCache(w0, w2, id);
    AsideChain(w, w2, w1, id);
  }

  // With an empty cache, all blocks of a row come back.
  lemma AllReclaimable(w: World, id: nat)
    requires WorldOk(w) && id in w.seqs && w.store.cache.entries == map[]
    ensures |w.store.pool.cached| == |w.store.pool.refs| && Below(Row(w.store, w.seqs[id]), |w.store.pool.refs|)
    ensures Reclaimable(w.store.pool, Row(w.store, w.seqs[id])) == |Row(w.store, w.seqs[id])|
  {
    hide WorldOk, StoreOk, Start, Chain, SeqOk, PrivateBlock;
    var row := Row(w.store, w.seqs[id]);
    OfWorld(w, id);
    StoreSizes(w.store);
    StorePool(w.store);
    RowFacts(w.store.pool, w.seqs[id].row);
    forall b | b in row ensures b < |w.store.pool.refs| && w.store.pool.refs[b] == 1 && !w.store.pool.cached[b] {
      var i: nat :| i < |row| && row[i] == b;
      NothingPinned(w.store, b);
      UnpinnedIsPrivate(w, id, i);
      IsPrivate(w, id, b);
    }
    ReclaimableAll(w.store.pool, row);
  }

  lemma NothingPinned(s: Store, b: nat)
    requires StoreOk(s) && s.cache.entries == map[]
    ensures !Pinned(s, b)
  {
    hide PoolOk, CacheOk;
  }

  lemma IsPrivate(w: World, id: nat, b: nat)
    requires PrivateBlock(w, id, b)
    ensures b < |w.store.pool.refs| && w.store.pool.refs[b] == 1 && !Pinned(w.store, b)
  {}

  lemma {:induction false} ReclaimableAll(p: Pool, s: seq<nat>)
    requires Below(s, |p.refs|) && |p.cached| == |p.refs|
    requires forall b :: b in s ==> b < |p.refs| && p.refs[b] == 1 && !p.cached[b]
    ensures Reclaimable(p, s) == |s|
  {
    if s != [] {
      assert s[0] in s;
      ReclaimableAll(p, s[1..]);
    }
  }

  // ---------------------------------------------------------------- the run

  // A sequence in prefill, and how long its row is.
  ghost predicate Seat(w: World, id: nat, prompt: seq<int32>, row: nat, progress: nat, recorded: nat, n: nat) {
    && id in w.seqs && w.seqs[id] == Sequence(prompt, row, progress, false, [], recorded)
    && |Row(w.store, w.seqs[id])| == n
  }

  lemma SeatAside(w: World, w1: World, other: nat, id: nat, prompt: seq<int32>, row: nat, progress: nat, recorded: nat, n: nat)
    requires Aside(w, w1, other) && id != other && Seat(w, id, prompt, row, progress, recorded, n)
    ensures Seat(w1, id, prompt, row, progress, recorded, n) && Row(w1.store, w1.seqs[id]) == Row(w.store, w.seqs[id])
  {}

  ghost predicate Sizes(w: World, size: nat, width: nat, maxEntries: nat) {
    w.store.cache.blockSize == size && w.store.pool.width == width && w.store.cache.maxEntries == maxEntries
  }

  lemma SizesAside(w: World, w1: World, id: nat, size: nat, width: nat, maxEntries: nat)
    requires Aside(w, w1, id) && Sizes(w, size, width, maxEntries)
    ensures Sizes(w1, size, width, maxEntries)
  {}

  // Three sequences for p and one for q, all admitted while the cache is empty.
  lemma Admissions(p: seq<int32>, q: seq<int32>, blocks: nat, width: nat, size: nat, maxEntries: nat)
    returns (w: World)
    requires size > 0 && maxEntries > 0 && p != [] && q != []
    requires |p| <= Start(size, width) && |q| <= Start(size, width)
    ensures At(Initial(blocks, 5, width, size, maxEntries), w) && w.growing == None && w.seen == {p, q}
    ensures Sizes(w, size, width, maxEntries) && w.seqs.Keys == {0, 1, 2, 3}
    ensures Seat(w, 0, p, 0, 0, 0, 0) && Seat(w, 1, p, 1, 0, 0, 0)
    ensures Seat(w, 2, p, 2, 0, 0, 0) && Seat(w, 3, q, 3, 0, 0, 0)
    ensures w.store.cache.entries == map[] && |w.store.pool.free| == blocks
    ensures w.store.pool.busy == [true, true, true, true, false]
  {
    hide At, Start, Aside, Seat, Sizes, Initial;
    var w0 := Initial(blocks, 5, width, size, maxEntries);
    InitialAt(blocks, width, size, maxEntries);
    var w1 := AdmitNext(w0, w0, 0, p, 0, size, width, maxEntries);
    var w2 := AdmitNext(w0, w1, 1, p, 1, size, width, maxEntries);
    SeatAside(w1, w2, 1, 0, p, 0, 0, 0, 0);
    var w3 := AdmitNext(w0, w2, 2, p, 2, size, width, maxEntries);
    SeatAside(w2, w3, 2, 0, p, 0, 0, 0, 0);
    SeatAside(w2, w3, 2, 1, p, 1, 0, 0, 0);
    w := AdmitNext(w0, w3, 3, q, 3, size, width, maxEntries);
    SeatAside(w3, w, 3, 0, p, 0, 0, 0, 0);
    SeatAside(w3, w, 3, 1, p, 1, 0, 0, 0);
    SeatAside(w3, w, 3, 2, p, 2, 0, 0, 0);
  }

  lemma AdmitNext(w0: World, w: World, id: nat, prompt: seq<int32>, row: nat, size: nat, width: nat, maxEntries: nat)
    returns (w1: World)
    requires At(w0, w) && id !in w.seqs && prompt != [] && w.store.cache.entries == map[]
    requires Sizes(w, size, width, maxEntries) && |prompt| <= Start(size, width)
    requires row < |w.store.pool.busy| && !w.store.pool.busy[row] && forall r :: 0 <= r < row ==> w.store.pool.busy[r]
    ensures At(w0, w1) && Aside(w, w1, id) && Sizes(w1, size, width, maxEntries) && Seat(w1, id, prompt, row, 0, 0, 0)
    ensures w1.growing == w.growing && w1.seen == w.seen + {prompt} && w1.seqs.Keys == w.seqs.Keys + {id}
    ensures w1.store.cache.entries == map[] && |w1.store.pool.free| == |w.store.pool.free|
    ensures w1.store.pool.busy == w.store.pool.busy[row := true]
  {
    hide At, Start, Aside, Row;
    w1 := AdmitFresh(w0, w, id, prompt, row);
    SizesAside(w, w1, id, size, width, maxEntries);
    AsideKeys(w, w1, id);
  }

  lemma InitialAt(blocks: nat, width: nat, size: nat, maxEntries: nat)
    requires size > 0 && maxEntries > 0
    ensures At(Initial(blocks, 5, width, size, maxEntries), Initial(blocks, 5, width, size, maxEntries))
    ensures var w := Initial(blocks, 5, width, size, maxEntries);
            && Sizes(w, size, width, maxEntries) && w.seqs == map[] && w.seen == {} && w.growing == None
            && w.store.cache.entries == map[] && |w.store.pool.free| == blocks
            && w.store.pool.busy == [false, false, false, false, false]
  {
    hide WorldOk, ContentOk, Reaches;
    InitialOk(blocks, 5, width, size, maxEntries);
    ReachesSelf(Initial(blocks, 5, width, size, maxEntries));
  }

  lemma AsideKeys(w: World, w1: World, id: nat)
    requires Aside(w, w1, id) && id in w1.seqs
    ensures w1.seqs.Keys == w.seqs.Keys + {id}
  {}

  // In a row none of whose blocks is pinned, all blocks are its own.
  lemma OwnBlocks(w: World, id: nat)
    requires WorldOk(w) && id in w.seqs && w.store.cache.entries == map[]
    ensures forall b, j :: b in Row(w.store, w.seqs[id]) && j in w.seqs && j != id ==> b !in Row(w.store, w.seqs[j])
  {
    hide WorldOk, StoreOk, Row;
    OfWorld(w, id);
    var row := Row(w.store, w.seqs[id]);
    forall b, j | b in row && j in w.seqs && j != id ensures b !in Row(w.store, w.seqs[j]) {
      var i: nat :| i < |row| && row[i] == b;
      NothingPinned(w.store, b);
      UnpinnedIsPrivate(w, id, i);
    }
  }

  // Entries made from blocks of a row that is gone are nobody's.
  lemma RetiredEvictable(w: World, w1: World, id: nat)
    requires WorldOk(w1) && id in w.seqs && id !in w1.seqs && Aside(w, w1, id)
    requires forall h :: h in w1.store.cache.entries ==> w1.store.cache.entries[h].block in Row(w.store, w.seqs[id])
    requires forall b, j :: b in Row(w.store, w.seqs[id]) && j in w.seqs && j != id ==> b !in Row(w.store, w.seqs[j])
    ensures AllEvictable(w1.store)
  {
    hide SeqOk, Tight, CacheOk, Occurrences, SharedPinned, Coupled;
    forall h | h in w1.store.cache.entries
      ensures w1.store.cache.entries[h].block < |w1.store.pool.refs|
      ensures w1.store.pool.refs[w1.store.cache.entries[h].block] == 0
    {
      var b, p := w1.store.cache.entries[h].block, w1.store.pool;
      EntryInside(w1.store, h);
      forall r | 0 <= r < |p.tables| ensures b !in p.tables[r] {
        if p.busy[r] {
          var j :| j in w1.seqs && w1.seqs[j].row == r;
          assert b !in Row(w.store, w.seqs[j]);
        }
      }
      OccurrencesNone(p.tables, b);
      assert Accounted(p, b);
    }
  }

  lemma EntryInside(s: Store, h: u64)
    requires StoreOk(s) && h in s.cache.entries
    ensures s.cache.entries[h].block < |s.pool.refs|
  {
    hide PoolOk, CacheOk;
  }

  // Both sequences of p compute its first a blocks; the second one's are
  // recorded, so that the first one's are passed over; the second one retires.
  lemma PassOver(w0: World, w: World, p: seq<int32>, q: seq<int32>, a: nat, size: nat, width: nat, maxEntries: nat)
    returns (w5: World)
    requires At(w0, w) && w.growing == None && w.seqs.Keys == {0, 1, 2, 3} && Sizes(w, size, width, maxEntries)
    requires Seat(w, 0, p, 0, 0, 0, 0) && Seat(w, 1, p, 1, 0, 0, 0) && Seat(w, 2, p, 2, 0, 0, 0) && Seat(w, 3, q, 3, 0, 0, 0)
    requires w.store.cache.entries == map[] && w.store.pool.busy == [true, true, true, true, false]
    requires size > 0 && a < CacheableBlocks(|p|, size) && 2 * a <= |w.store.pool.free| && a <= width && 2 * a <= maxEntries
    requires p != []
    ensures At(w0, w5) && w5.growing == None && w5.seqs.Keys == {0, 2, 3} && Sizes(w5, size, width, maxEntries)
    ensures Seat(w5, 0, p, 0, Start(size, a), a, a) && Seat(w5, 2, p, 2, 0, 0, 0) && Seat(w5, 3, q, 3, 0, 0, 0)
    ensures AllEvictable(w5.store) && |w5.store.cache.entries| <= a && w5.seen == w.seen
    ensures |w.store.pool.free| - 2 * a <= |w5.store.pool.free| <= |w.store.pool.free|
    ensures w5.store.pool.busy == [true, false, true, true, false]
  {
    hide At, Aside, Row, Start, CacheableBlocks, RecordedMany, MayRecordMany, AllThere, AllEvictable;
    BelowCacheable(p, size, a);
    ZeroStart(size);
    var w1 := ServeSeat(w0, w, 0, p, 0, 0, a, size, width, maxEntries);
    SeatAside(w, w1, 0, 1, p, 1, 0, 0, 0);
    SeatAside(w, w1, 0, 2, p, 2, 0, 0, 0);
    SeatAside(w, w1, 0, 3, q, 3, 0, 0, 0);
    var w2 := ServeSeat(w0, w1, 1, p, 1, 0, a, size, width, maxEntries);
    SeatAside(w1, w2, 1, 0, p, 0, Start(size, a), 0, a);
    SeatAside(w1, w2, 1, 2, p, 2, 0, 0, 0);
    SeatAside(w1, w2, 1, 3, q, 3, 0, 0, 0);
    OwnBlocksAt(w0, w2, 1);
    var w3 := RecordSeat(w0, w2, 1, p, 1, Start(size, a), 0, a, a, size, width, maxEntries);
    SeatAside(w2, w3, 1, 0, p, 0, Start(size, a), 0, a);
    SeatAside(w2, w3, 1, 2, p, 2, 0, 0, 0);
    SeatAside(w2, w3, 1, 3, q, 3, 0, 0, 0);
    var w4 := PassSeat(w0, w3, w2, 0, 1, p, a, size, width, maxEntries);
    SeatAside(w3, w4, 0, 1, p, 1, Start(size, a), a, a);
    SeatAside(w3, w4, 0, 2, p, 2, 0, 0, 0);
    SeatAside(w3, w4, 0, 3, q, 3, 0, 0, 0);
    w5 := RetireOne(w0, w4, 1);
    SizesAside(w4, w5, 1, size, width, maxEntries);
    SeatAside(w4, w5, 1, 0, p, 0, Start(size, a), a, a);
    SeatAside(w4, w5, 1, 2, p, 2, 0, 0, 0);
    SeatAside(w4, w5, 1, 3, q, 3, 0, 0, 0);
    ReclaimableAtMost(w4.store.pool, Row(w4.store, w4.seqs[1]));
    EntriesFromRow(w2, w3, 1, a);
    RowsStayOwn(w2, w3, 1);
    SameRows(w3, w4, 0, 1);
    RetiredAt(w0, w4, w5, 1);
  }

  lemma BelowCacheable(p: seq<int32>, size: nat, a: nat)
    requires size > 0 && a <= CacheableBlocks(|p|, size) && p != []
    ensures Start(size, a) < |p| && (a < CacheableBlocks(|p|, size) ==> Start(size, a + 1) < |p|)
  {
    StartUpTo(size, a, CacheableBlocks(|p|, size));
    if a < CacheableBlocks(|p|, size) {
      StartUpTo(size, a + 1, CacheableBlocks(|p|, size));
    }
  }

  lemma {:induction false} ReclaimableAtMost(p: Pool, s: seq<nat>)
    requires Below(s, |p.refs|) && |p.cached| == |p.refs|
    ensures Reclaimable(p, s) <= |s|
  {
    if s != [] {
      ReclaimableAtMost(p, s[1..]);
    }
  }

  lemma OwnBlocksAt(w0: World, w: World, id: nat)
    requires At(w0, w) && id in w.seqs && w.store.cache.entries == map[]
    ensures forall b, j :: b in Row(w.store, w.seqs[id]) && j in w.seqs && j != id ==> b !in Row(w.store, w.seqs[j])
  {
    hide WorldOk, ContentOk, Reaches;
    OwnBlocks(w, id);
  }

  // Blocks [m, m + n) of a seated sequence are computed.
  lemma ServeSeat(w0: World, w: World, id: nat, prompt: seq<int32>, row: nat, recorded: nat, n: nat,
                  size: nat, width: nat, maxEntries: nat)
    returns (w1: World)
    requires At(w0, w) && w.growing == None && Sizes(w, size, width, maxEntries)
    requires Seat(w, id, prompt, row, Start(size, recorded), recorded, recorded)
    requires Start(size, recorded + n) < |prompt| && n <= |w.store.pool.free| && recorded + n <= width
    ensures At(w0, w1) && Aside(w, w1, id) && w1.growing == None && w1.seen == w.seen && w1.seqs.Keys == w.seqs.Keys
    ensures Sizes(w1, size, width, maxEntries)
    ensures Seat(w1, id, prompt, row, Start(size, recorded + n), recorded, recorded + n)
    ensures w1.store.cache == w.store.cache && w1.store.pool.busy == w.store.pool.busy
    ensures |w1.store.pool.free| == |w.store.pool.free| - n
  {
    hide At, Aside, Start;
    w1 := Serve(w0, w, id, recorded, n);
    SizesAside(w, w1, id, size, width, maxEntries);
  }

  lemma RecordSeat(w0: World, w: World, id: nat, prompt: seq<int32>, row: nat, progress: nat, recorded: nat, n: nat, len: nat,
                   size: nat, width: nat, maxEntries: nat)
    returns (w1: World)
    requires At(w0, w) && Sizes(w, size, width, maxEntries) && Seat(w, id, prompt, row, progress, recorded, len)
    requires size > 0 && recorded + n <= CacheableBlocks(|prompt|, size) && recorded + n <= len
    requires Start(size, recorded + n) <= progress <= |prompt| && |w.store.cache.entries| + n <= maxEntries
    ensures At(w0, w1) && Aside(w, w1, id) && w1.growing == w.growing && w1.seen == w.seen && w1.kv == w.kv
    ensures w1.seqs.Keys == w.seqs.Keys && Sizes(w1, size, width, maxEntries)
    ensures Seat(w1, id, prompt, row, progress, recorded + n, len)
    ensures Row(w1.store, w1.seqs[id]) == Row(w.store, w.seqs[id])
    ensures w1.store.pool == w.store.pool.(cached := w1.store.pool.cached) && RecordedMany(w, w1, id, n)
    ensures AllThere(w.store.cache, w.seqs[id], n) ==> w1.store == w.store
    ensures |w1.store.cache.entries| <= |w.store.cache.entries| + n
  {
    hide At, Aside, Start, RecordedMany, AllThere, CacheableBlocks;
    w1 := RecordMany(w0, w, id, n);
    SizesAside(w, w1, id, size, width, maxEntries);
    AtMostMore(w, w1, id, n);
  }

  // The same prompt again: its hashes are all there.
  lemma PassSeat(w0: World, w: World, before: World, id: nat, other: nat, p: seq<int32>, a: nat,
                 size: nat, width: nat, maxEntries: nat)
    returns (w1: World)
    requires At(w0, w) && Sizes(w, size, width, maxEntries) && Sizes(before, size, width, maxEntries)
    requires Seat(w, id, p, id, Start(size, a), 0, a) && Seat(before, other, p, other, Start(size, a), 0, a)
    requires RecordedMany(before, w, other, a) && size > 0 && a <= CacheableBlocks(|p|, size) && Start(size, a) <= |p|
    requires |w.store.cache.entries| <= a && 2 * a <= maxEntries
    ensures At(w0, w1) && Aside(w, w1, id) && w1.growing == w.growing && w1.seen == w.seen && w1.store == w.store
    ensures w1.seqs.Keys == w.seqs.Keys && Sizes(w1, size, width, maxEntries)
    ensures Seat(w1, id, p, id, Start(size, a), a, a)
  {
    hide At, Aside, Start, CacheableBlocks, HasEntry;
    w1 := RecordSeat(w0, w, id, p, id, Start(size, a), 0, a, a, size, width, maxEntries);
  }

  // All entries name blocks of the row they were recorded from.
  lemma EntriesFromRow(w: World, w1: World, id: nat, n: nat)
    requires id in w.seqs && w.store.cache.entries == map[] && RecordedMany(w, w1, id, n)
    ensures forall h :: h in w1.store.cache.entries ==> w1.store.cache.entries[h].block in Row(w.store, w.seqs[id])
  {
    hide Start, Chain, BlockOf, Row, HasEntry, MadeAt;
    var row := Row(w.store, w.seqs[id]);
    forall h | h in w1.store.cache.entries ensures w1.store.cache.entries[h].block in row {
      var j: nat :| MadeAt(w1.store.cache.entries, w.seqs[id].prompt, w.store.cache.blockSize, row, h, j);
      MadeFromRow(w1.store.cache.entries, w.seqs[id].prompt, w.store.cache.blockSize, row, h, j);
    }
  }

  lemma MadeFromRow(entries: map<u64, Entry>, prompt: seq<int32>, size: nat, row: seq<nat>, h: u64, j: nat)
    requires MadeAt(entries, prompt, size, row, h, j)
    ensures j < |row| && h in entries && entries[h].block == row[j] && row[j] in row
  {
    hide Start, Chain, BlockOf;
  }

  // Recording moves no block between rows.
  lemma RowsStayOwn(w: World, w1: World, id: nat)
    requires id in w.seqs && id in w1.seqs && Aside(w, w1, id) && Row(w1.store, w1.seqs[id]) == Row(w.store, w.seqs[id])
    requires forall b, j :: b in Row(w.store, w.seqs[id]) && j in w.seqs && j != id ==> b !in Row(w.store, w.seqs[j])
    ensures forall b, j :: b in Row(w1.store, w1.seqs[id]) && j in w1.seqs && j != id ==> b !in Row(w1.store, w1.seqs[j])
  {
    hide Row;
  }

  lemma SameRows(w: World, w1: World, other: nat, id: nat)
    requires id in w.seqs && w1.store == w.store && Aside(w, w1, other) && other != id && other in w1.seqs && other in w.seqs
    requires w1.seqs[other].row == w.seqs[other].row
    requires forall b, j :: b in Row(w.store, w.seqs[id]) && j in w.seqs && j != id ==> b !in Row(w.store, w.seqs[j])
    ensures forall b, j :: b in Row(w1.store, w1.seqs[id]) && j in w1.seqs && j != id ==> b !in Row(w1.store, w1.seqs[j])
  {
    SameStoreRow(w, w1, w.seqs[other], w1.seqs[other]);
    hide Row;
  }

  lemma RetiredAt(w0: World, w: World, w1: World, id: nat)
    requires At(w0, w1) && id in w.seqs && id !in w1.seqs && Aside(w, w1, id) && w1.store.cache == w.store.cache
    requires forall h :: h in w.store.cache.entries ==> w.store.cache.entries[h].block in Row(w.store, w.seqs[id])
    requires forall b, j :: b in Row(w.store, w.seqs[id]) && j in w.seqs && j != id ==> b !in Row(w.store, w.seqs[j])
    ensures AllEvictable(w1.store)
  {
    hide WorldOk, ContentOk, Reaches, Row, Aside, AllEvictable;
    RetiredEvictable(w, w1, id);
  }

  // The third sequence of p drives all entries out and retires.
  lemma ClearOut(w0: World, w: World, p: seq<int32>, q: seq<int32>, a: nat, size: nat, width: nat, maxEntries: nat)
    returns (w2: World)
    requires At(w0, w) && w.growing == None && w.seqs.Keys == {0, 2, 3} && Sizes(w, size, width, maxEntries)
    requires Seat(w, 0, p, 0, Start(size, a), a, a) && Seat(w, 2, p, 2, 0, 0, 0) && Seat(w, 3, q, 3, 0, 0, 0)
    requires AllEvictable(w.store) && |w.store.pool.free| + |w.store.cache.entries| <= width
    requires w.store.pool.busy == [true, false, true, true, false]
    ensures At(w0, w2) && w2.growing == None && w2.seqs.Keys == {0, 3} && Sizes(w2, size, width, maxEntries)
    ensures Seat(w2, 0, p, 0, Start(size, a), a, a) && Seat(w2, 3, q, 3, 0, 0, 0)
    ensures w2.store.cache.entries == map[] && |w2.store.pool.free| >= |w.store.pool.free| && w2.seen == w.seen
    ensures w2.store.pool.busy == [true, false, false, true, false]
  {
    hide WorldOk, ContentOk, Reaches, Aside, Row, Start, AllEvictable;
    var w1 := EmptyCache(w0, w, 2);
    SizesAside(w, w1, 2, size, width, maxEntries);
    SeatAside(w, w1, 2, 0, p, 0, Start(size, a), a, a);
    SeatAside(w, w1, 2, 3, q, 3, 0, 0, 0);
    AllReclaimable(w1, 2);
    w2 := RetireOne(w0, w1, 2);
    SizesAside(w1, w2, 2, size, width, maxEntries);
    SeatAside(w1, w2, 2, 0, p, 0, Start(size, a), a, a);
    SeatAside(w1, w2, 2, 3, q, 3, 0, 0, 0);
  }

  // What the cache holds when q comes again: the first b blocks of q, and an
  // entry for block a of p unless one with its hash was there already.
  ghost predicate Primed(entries: map<u64, Entry>, row: seq<nat>, rowq: seq<nat>, p: seq<int32>, a: nat, q: seq<int32>, b: nat,
                         size: nat)
  {
    && HasEntry(entries, p, size, a)
    && (forall j :: 0 <= j < b ==> HasEntry(entries, q, size, j))
    && (forall h :: h in entries ==>
          MadeAt(entries, p, size, row, h, a) || exists j :: 0 <= j < b && MadeAt(entries, q, size, rowq, h, j))
  }

  lemma Prime(w0: World, w: World, p: seq<int32>, q: seq<int32>, a: nat, b: nat, size: nat, width: nat, maxEntries: nat)
    returns (w4: World)
    requires At(w0, w) && w.growing == None && w.seqs.Keys == {0, 3} && Sizes(w, size, width, maxEntries)
    requires Seat(w, 0, p, 0, Start(size, a), a, a) && Seat(w, 3, q, 3, 0, 0, 0) && p != [] && q != []
    requires w.store.cache.entries == map[] && w.store.pool.busy == [true, false, false, true, false]
    requires size > 0 && a < CacheableBlocks(|p|, size) && b < CacheableBlocks(|q|, size)
    requires b + 1 <= |w.store.pool.free| && a + 1 <= width && b <= width && b + 1 <= maxEntries
    ensures At(w0, w4) && w4.growing == None && w4.seqs.Keys == {0, 3} && Sizes(w4, size, width, maxEntries)
    ensures Seat(w4, 0, p, 0, Start(size, a + 1), a + 1, a + 1) && Seat(w4, 3, q, 3, Start(size, b), b, b)
    ensures Primed(w4.store.cache.entries, Row(w4.store, w4.seqs[0]), Row(w4.store, w4.seqs[3]), p, a, q, b, size)
    ensures w4.store.pool.busy == w.store.pool.busy && w4.seen == w.seen
  {
    hide At, Aside, Row, Start, CacheableBlocks, RecordedMany, AllThere, Primed;
    BelowCacheable(p, size, a);
    BelowCacheable(q, size, b);
    ZeroStart(size);
    var w1 := ServeSeat(w0, w, 3, q, 3, 0, b, size, width, maxEntries);
    SeatAside(w, w1, 3, 0, p, 0, Start(size, a), a, a);
    var w2 := RecordSeat(w0, w1, 3, q, 3, Start(size, b), 0, b, b, size, width, maxEntries);
    SeatAside(w1, w2, 3, 0, p, 0, Start(size, a), a, a);
    var w3 := ServeSeat(w0, w2, 0, p, 0, a, 1, size, width, maxEntries);
    SeatAside(w2, w3, 0, 3, q, 3, Start(size, b), b, b);
    w4 := RecordSeat(w0, w3, 0, p, 0, Start(size, a + 1), a, 1, a + 1, size, width, maxEntries);
    SeatAside(w3, w4, 0, 3, q, 3, Start(size, b), b, b);
    IsPrimed(w1, w2, w3, w4, p, a, q, b, size);
  }

  lemma IsPrimed(w1: World, w2: World, w3: World, w4: World, p: seq<int32>, a: nat, q: seq<int32>, b: nat, size: nat)
    requires 3 in w1.seqs && w1.seqs[3].prompt == q && w1.seqs[3].recorded == 0 && w1.store.cache.blockSize == size
    requires w1.store.cache.entries == map[] && RecordedMany(w1, w2, 3, b) && w3.store.cache == w2.store.cache
    requires 0 in w3.seqs && w3.seqs[0].prompt == p && w3.seqs[0].recorded == a && w3.store.cache.blockSize == size
    requires RecordedMany(w3, w4, 0, 1)
    ensures Primed(w4.store.cache.entries, Row(w3.store, w3.seqs[0]), Row(w1.store, w1.seqs[3]), p, a, q, b, size)
  {
    hide Start, Chain, BlockOf, Row, EntryFor, Fits;
    var e2, e4 := w2.store.cache.entries, w4.store.cache.entries;
    forall j | 0 <= j < b ensures HasEntry(e4, q, size, j) {
      assert HasEntry(e2, q, size, j);
    }
    assert HasEntry(e4, p, size, a);
    forall h | h in e4
      ensures MadeAt(e4, p, size, Row(w3.store, w3.seqs[0]), h, a)
              || exists j :: 0 <= j < b && MadeAt(e4, q, size, Row(w1.store, w1.seqs[3]), h, j)
    {
      if h in e2 {
        var j: nat :| 0 <= j < b && MadeAt(e2, q, size, Row(w1.store, w1.seqs[3]), h, j);
        assert MadeAt(e4, q, size, Row(w1.store, w1.seqs[3]), h, j);
      } else {
        var j: nat :| a <= j < a + 1 && MadeAt(e4, p, size, Row(w3.store, w3.seqs[0]), h, j);
      }
    }
  }

  // ---------------------------------------------------------------- the wrong match

  // The longest match, when the first n blocks are hits.
  lemma FindMatch(s: Store, prompt: seq<int32>, n: nat) returns (blocks: seq<nat>, hashes: seq<u64>)
    requires s.cache.blockSize > 0 && n <= CacheableBlocks(|prompt|, s.cache.blockSize)
    requires forall i :: 0 <= i < n ==> HitAt(s, prompt, i)
    ensures IsMatch(s, prompt, blocks, hashes) && |blocks| >= n
  {
    hide Chain, BlockOf, Start, Shareable;
    var size := s.cache.blockSize;
    var most := CacheableBlocks(|prompt|, size);
    blocks, hashes := [], [];
    var i: nat := 0;
    var more := true;
    while i < most && more
      invariant i <= most && |blocks| == |hashes| == i
      invariant forall j :: 0 <= j < i ==> MatchedAt(s, prompt, blocks, hashes, j)
      invariant !more ==> i < most && n <= i && Start(size, i + 1) <= |prompt| && !Hit(s, prompt, i)
      decreases most - i, more
    {
      CacheableFits(prompt, size, i);
      FitsIs(prompt, size, i);
      if Hit(s, prompt, i) {
        var h := Chain(prompt, size, i + 1);
        var blocks0, hashes0 := blocks, hashes;
        blocks, hashes := blocks + [s.cache.entries[h].block], hashes + [h];
        forall j | 0 <= j < i ensures MatchedAt(s, prompt, blocks, hashes, j) {
          assert MatchedAt(s, prompt, blocks0, hashes0, j);
        }
        i := i + 1;
      } else {
        assert i < n ==> HitAt(s, prompt, i);
        more := false;
      }
    }
  }

  // An entry made for block k of x is a hit for block i of q when the hash, the
  // hash before it and the block are the same.
  lemma HitFrom(s: Store, q: seq<int32>, i: nat, x: seq<int32>, row: seq<nat>, k: nat)
    requires StoreOk(s) && Fits(q, s.cache.blockSize, i)
    requires MadeAt(s.cache.entries, x, s.cache.blockSize, row, Chain(q, s.cache.blockSize, i + 1), k)
    requires Chain(x, s.cache.blockSize, k) == Chain(q, s.cache.blockSize, i)
    requires BlockOf(x, s.cache.blockSize, k) == BlockOf(q, s.cache.blockSize, i)
    ensures Hit(s, q, i) && s.cache.entries[Chain(q, s.cache.blockSize, i + 1)].block == row[k]
  {
    hide PoolOk, CacheOk, Chain, BlockOf, Start;
  }

  // The block of the last hit belongs to p's row, or to an earlier block of q.
  ghost predicate Misplaced(s: Store, q: seq<int32>, b: nat, row: seq<nat>, a: nat, rowq: seq<nat>)
    requires Fits(q, s.cache.blockSize, b)
  {
    var h := Chain(q, s.cache.blockSize, b + 1);
    h in s.cache.entries
    && ((a < |row| && s.cache.entries[h].block == row[a])
        || exists j :: 0 <= j < b && j < |rowq| && s.cache.entries[h].block == rowq[j])
  }

  // All of the first b + 1 blocks of q are hits.
  lemma PrimedHits(s: Store, row: seq<nat>, rowq: seq<nat>, p: seq<int32>, a: nat, q: seq<int32>, b: nat, i: nat)
    requires StoreOk(s) && s.cache.blockSize > 0 && i <= b
    requires Primed(s.cache.entries, row, rowq, p, a, q, b, s.cache.blockSize) && Fork(p, a, q, b, s.cache.blockSize)
    ensures Fits(q, s.cache.blockSize, i) && Hit(s, q, i)
    ensures i == b ==> Misplaced(s, q, b, row, a, rowq)
  {
    hide StoreOk, Start, BlockOf, CacheableBlocks, EntryFor, MadeAt, Fnv.BlockHash, Hit, Fits;
    var entries, size := s.cache.entries, s.cache.blockSize;
    SameNext(p, a, q, b, size);
    assert SteadyAt(q, size, i, i);
    FitsIs(q, size, i);
    FitsIs(p, size, a);
    var h := Chain(q, size, i + 1);
    assert h in entries by {
      assert HasEntry(entries, p, size, a);
      assert i < b ==> HasEntry(entries, q, size, i);
    }
    if MadeAt(entries, p, size, row, h, a) {
      MadeHash(entries, p, size, row, h, a);
      assert SteadyAt(q, size, i, b);
      HitFrom(s, q, i, p, row, a);
    } else {
      var j: nat :| 0 <= j < b && MadeAt(entries, q, size, rowq, h, j);
      MadeHash(entries, q, size, rowq, h, j);
      assert SteadyAt(q, size, i, j);
      HitFrom(s, q, i, q, rowq, j);
    }
  }

  lemma MadeHash(entries: map<u64, Entry>, prompt: seq<int32>, size: nat, row: seq<nat>, h: u64, j: nat)
    requires MadeAt(entries, prompt, size, row, h, j)
    ensures Fits(prompt, size, j) && h == Chain(prompt, size, j + 1) && j < |row|
  {
    hide Start, Chain, BlockOf;
  }

  lemma SameNext(p: seq<int32>, a: nat, q: seq<int32>, b: nat, size: nat)
    requires size > 0 && Fork(p, a, q, b, size)
    ensures Fits(p, size, a) && Fits(q, size, b) && Chain(p, size, a + 1) == Chain(q, size, b + 1)
  {
    hide BlockOf, CacheableBlocks, Fnv.BlockHash, Steady;
    assert Chain(p, size, a + 1) == Fnv.BlockHash(Chain(p, size, a), BlockOf(p, size, a));
    assert Chain(q, size, b + 1) == Fnv.BlockHash(Chain(q, size, b), BlockOf(q, size, b));
  }

  // What the first cell of block k of a seated sequence holds.
  lemma FirstCell(w: World, id: nat, prompt: seq<int32>, row: nat, progress: nat, recorded: nat, n: nat, k: nat)
    requires ContentOk(w) && Seat(w, id, prompt, row, progress, recorded, n) && w.store.cache.blockSize > 0
    requires k < n && Start(w.store.cache.blockSize, k) < progress
    ensures Start(w.store.cache.blockSize, k) < |prompt|
    ensures Holds(w.kv, Row(w.store, w.seqs[id])[k], 0, prompt[..Start(w.store.cache.blockSize, k) + 1])
  {
    hide Start, Row;
    assert SeqTrue(w, w.seqs[id]);
    assert Inside(w.store.cache.blockSize, progress, k, 0);
    assert CellTrue(w.kv, w.store.cache.blockSize, Row(w.store, w.seqs[id]), Tokens(w.seqs[id]), k, 0);
    assert Tokens(w.seqs[id]) == prompt;
  }

  lemma OneContext(x: seq<int32>, k: nat, q: seq<int32>, b: nat)
    requires k < |x| && b < |q| && x[..k + 1] == q[..b + 1]
    ensures k == b && x[..k] == q[..b]
  {
    assert |x[..k + 1]| == |q[..b + 1]|;
    assert x[..k] == x[..k + 1][..k] && q[..b] == q[..b + 1][..b];
  }

  // The first n blocks of the prompt are hits, whatever rows are in use.
  ghost predicate HitsFirst(c: Cache, prompt: seq<int32>, n: nat) {
    forall s, i: nat :: StoreOk(s) && s.cache == c && i < n ==> HitAt(s, prompt, i)
  }

  ghost predicate HitAt(s: Store, prompt: seq<int32>, i: nat) {
    Start(s.cache.blockSize, i + 1) <= |prompt| && Hit(s, prompt, i)
  }

  // A match names the blocks of the entries under the prompt's hashes.
  ghost predicate TakenAt(c: Cache, prompt: seq<int32>, blocks: seq<nat>, i: nat)
    requires i < |blocks|
  {
    && Fits(prompt, c.blockSize, i) && Chain(prompt, c.blockSize, i + 1) in c.entries
    && blocks[i] == c.entries[Chain(prompt, c.blockSize, i + 1)].block
  }

  lemma MatchTakes(s: Store, prompt: seq<int32>, blocks: seq<nat>, hashes: seq<u64>)
    requires s.cache.blockSize > 0 && IsMatch(s, prompt, blocks, hashes)
    ensures forall i :: 0 <= i < |blocks| ==> TakenAt(s.cache, prompt, blocks, i)
  {
    hide Start, Chain, Hit, CacheableBlocks;
    forall i | 0 <= i < |blocks| ensures TakenAt(s.cache, prompt, blocks, i) {
      assert MatchedAt(s, prompt, blocks, hashes, i);
      CacheableFits(prompt, s.cache.blockSize, i);
    }
  }

  // A prompt whose first n blocks are hits is admitted with at least these mounted.
  lemma AdmitAgain(w0: World, w: World, id: nat, prompt: seq<int32>, row: nat, n: nat)
    returns (w1: World, blocks: seq<nat>)
    requires At(w0, w) && id !in w.seqs && prompt != [] && |prompt| <= Start(w.store.cache.blockSize, w.store.pool.width)
    requires row < |w.store.pool.busy| && !w.store.pool.busy[row] && forall r :: 0 <= r < row ==> w.store.pool.busy[r]
    requires w.store.cache.blockSize > 0 && n <= CacheableBlocks(|prompt|, w.store.cache.blockSize)
    requires HitsFirst(w.store.cache, prompt, n)
    ensures Reaches(w0, w1) && w1.seen == w.seen + {prompt} && w1.kv == w.kv
    ensures |blocks| >= n && w1.store.cache.blockSize == w.store.cache.blockSize
    ensures Seat(w1, id, prompt, row, Start(w.store.cache.blockSize, |blocks|), 0, |blocks|)
    ensures Row(w1.store, w1.seqs[id]) == blocks
    ensures forall i :: 0 <= i < |blocks| ==> TakenAt(w.store.cache, prompt, blocks, i)
    ensures Repeats(prompt, w.store.cache.blockSize, |blocks|) ==> !WorldOk(w1)
  {
    hide Repeats, WorldOk, ContentOk, StoreOk, Start, Hit, CacheableBlocks, Row, Reaches, Seat, TakenAt, IsMatch, Enter, Mount;
    var w2 := Entered(w, id, prompt, row);
    assert forall i :: 0 <= i < n ==> HitAt(w2.store, prompt, i);
    var hashes;
    blocks, hashes := FindMatch(w2.store, prompt, n);
    w1 := MountAgain(w0, w, w2, id, prompt, row, blocks, hashes);
    MatchTakes(w2.store, prompt, blocks, hashes);
  }

  lemma Entered(w: World, id: nat, prompt: seq<int32>, row: nat) returns (w2: World)
    requires WorldOk(w) && id !in w.seqs && prompt != []
    requires row < |w.store.pool.busy| && !w.store.pool.busy[row]
    ensures w2 == Enter(w, id, prompt, row) && WorldOk(w2) && StoreOk(w2.store) && w2.store.cache == w.store.cache
  {
    hide WorldOk, ContentOk, StoreOk;
    EnterKeeps(w, id, prompt, row);
    w2 := Enter(w, id, prompt, row);
    EntersOk(w2);
  }

  lemma MountAgain(w0: World, w: World, w2: World, id: nat, prompt: seq<int32>, row: nat, blocks: seq<nat>, hashes: seq<u64>)
    returns (w1: World)
    requires Reaches(w0, w) && WorldOk(w) && WorldOk(w2) && id !in w.seqs && prompt != []
    requires |prompt| <= Start(w.store.cache.blockSize, w.store.pool.width) && w.store.cache.blockSize > 0
    requires row < |w.store.pool.busy| && !w.store.pool.busy[row] && forall r :: 0 <= r < row ==> w.store.pool.busy[r]
    requires w2 == Enter(w, id, prompt, row) && IsMatch(w2.store, prompt, blocks, hashes)
    ensures Reaches(w0, w1) && w1.seen == w.seen + {prompt} && w1.kv == w.kv
    ensures w1.store.cache.blockSize == w.store.cache.blockSize
    ensures Seat(w1, id, prompt, row, Start(w.store.cache.blockSize, |blocks|), 0, |blocks|)
    ensures Row(w1.store, w1.seqs[id]) == blocks
    ensures Repeats(prompt, w.store.cache.blockSize, |blocks|) ==> !WorldOk(w1)
  {
    hide WorldOk, ContentOk, StoreOk, Start, IsMatch, Repeats, NoFork, Row, Reaches;
    EntersOk(w);
    FirstIdleIs(w.store.pool.busy, row);
    NoBlocksAsked(w.store, row);
    OfWorld(w2, id);
    EmptyRow(w, w2, id, row);
    MountKeeps(w2, id, blocks, hashes);
    w1 := Mount(w2, id, blocks, hashes);
    assert AdmitStep(w, id, prompt, blocks, hashes, w1);
    assert StepOf(w, Admit(id, prompt, blocks, hashes), w1);
    ReachesStep(w0, w, Admit(id, prompt, blocks, hashes), w1);
    MountRows(w2, id, blocks, hashes);
    MountedSeat(w2, w1, id, blocks, hashes);
  }

  lemma EmptyRow(w: World, w2: World, id: nat, row: nat)
    requires WorldOk(w) && id in w2.seqs && w2.seqs[id].row == row && row < |w.store.pool.busy| && !w.store.pool.busy[row]
    requires w2.store.pool.tables == w.store.pool.tables
    ensures Row(w2.store, w2.seqs[id]) == []
  {
    hide SeqOk, Tight, Inv, CacheOk, Coupled;
    IdleRowIsEmpty(w.store.pool, row);
  }

  lemma EntersOk(w: World)
    requires WorldOk(w)
    ensures StoreOk(w.store)
  {
    hide StoreOk, SeqOk, Tight;
  }

  // q comes again: block b of its match holds what another context gave.
  lemma WrongMatch(w0: World, w: World, p: seq<int32>, a: nat, q: seq<int32>, b: nat, size: nat, width: nat, maxEntries: nat)
    returns (w1: World)
    requires At(w0, w) && w.seqs.Keys == {0, 3} && Sizes(w, size, width, maxEntries) && size > 0
    requires Seat(w, 0, p, 0, Start(size, a + 1), a + 1, a + 1) && Seat(w, 3, q, 3, Start(size, b), b, b)
    requires Primed(w.store.cache.entries, Row(w.store, w.seqs[0]), Row(w.store, w.seqs[3]), p, a, q, b, size)
    requires Fork(p, a, q, b, size) && q != []
    requires w.store.pool.busy == [true, false, false, true, false] && |q| <= Start(size, width)
    ensures Reaches(w0, w1) && w1.seen == w.seen + {q} && !ContentOk(w1)
    ensures Repeats(q, size, b + 1) ==> !WorldOk(w1)
  {
    hide WorldOk, ContentOk, StoreOk, Start, Chain, Hit, BlockOf, Primed, CacheableBlocks, Row, Reaches, Misplaced;
    var row, rowq := Row(w.store, w.seqs[0]), Row(w.store, w.seqs[3]);
    forall s, i: nat | StoreOk(s) && s.cache == w.store.cache && i < b + 1 ensures HitAt(s, q, i) {
      PrimedHits(s, row, rowq, p, a, q, b, i);
      FitsIs(q, size, i);
    }
    ForkBound(p, a, q, b, size);
    var blocks;
    w1, blocks := AdmitAgain(w0, w, 4, q, 1, b + 1);
    EntersOk(w);
    PrimedHits(w.store, row, rowq, p, a, q, b, b);
    StillConfused(w, w1, p, a, q, b, size, blocks);
    MoreRepeats(q, size, b + 1, |blocks|);
  }

  lemma MoreRepeats(q: seq<int32>, size: nat, m: nat, n: nat)
    requires m <= n
    ensures Repeats(q, size, m) ==> Repeats(q, size, n)
  {
    hide Start, Chain, BlockOf;
    if Repeats(q, size, m) {
      var k: nat :| RepeatsAt(q, size, m, k);
      assert RepeatsAt(q, size, n, k);
    }
  }

  lemma ForkBound(p: seq<int32>, a: nat, q: seq<int32>, b: nat, size: nat)
    requires size > 0 && Fork(p, a, q, b, size)
    ensures b + 1 <= CacheableBlocks(|q|, size) && a < CacheableBlocks(|p|, size) && p != [] && q != []
  {
    hide Chain, BlockOf, Steady;
  }

  lemma MountedSeat(w: World, w1: World, id: nat, blocks: seq<nat>, hashes: seq<u64>)
    requires id in w.seqs && w.seqs[id].row < |w.store.pool.tables| && Below(blocks, |w.store.pool.refs|)
    requires w1 == Mount(w, id, blocks, hashes) && w.seqs[id] == Sequence(w.seqs[id].prompt, w.seqs[id].row, 0, false, [], 0)
    requires w1.store.pool == w.store.pool.(refs := w1.store.pool.refs,
                                            tables := w.store.pool.tables[w.seqs[id].row := blocks])
    ensures Seat(w1, id, w.seqs[id].prompt, w.seqs[id].row, Start(w.store.cache.blockSize, |blocks|), 0, |blocks|)
    ensures Row(w1.store, w1.seqs[id]) == blocks && w1.kv == w.kv && w1.store.cache.blockSize == w.store.cache.blockSize
  {
    hide Start, Mounted, TouchAll;
  }

  // Were the contents right, one cell would hold two contexts.
  lemma StillConfused(w: World, w1: World, p: seq<int32>, a: nat, q: seq<int32>, b: nat, size: nat, blocks: seq<nat>)
    requires ContentOk(w) && w1.kv == w.kv && size > 0
    requires w.store.cache.blockSize == size && w1.store.cache.blockSize == size
    requires Seat(w, 0, p, 0, Start(size, a + 1), a + 1, a + 1) && Seat(w, 3, q, 3, Start(size, b), b, b)
    requires Seat(w1, 4, q, 1, Start(size, |blocks|), 0, |blocks|) && Row(w1.store, w1.seqs[4]) == blocks
    requires Fork(p, a, q, b, size) && Fits(q, size, b) && |blocks| >= b + 1
    requires Misplaced(w.store, q, b, Row(w.store, w.seqs[0]), a, Row(w.store, w.seqs[3]))
    requires TakenAt(w.store.cache, q, blocks, b)
    ensures !ContentOk(w1)
  {
    hide ContentOk, Start, Chain, BlockOf, CacheableBlocks, Row, Fork, Fits;
    var row, rowq := Row(w.store, w.seqs[0]), Row(w.store, w.seqs[3]);
    StartUpTo(size, b, |blocks|);
    if ContentOk(w1) {
      FirstCell(w1, 4, q, 1, Start(size, |blocks|), 0, |blocks|, b);
      if a < |row| && blocks[b] == row[a] {
        StartNext(size, a);
        FirstCell(w, 0, p, 0, Start(size, a + 1), a + 1, a + 1, a);
        ForkDiffers(p, a, q, b, size);
        OneContext(p, Start(size, a), q, Start(size, b));
        assert false;
      } else {
        var j: nat :| 0 <= j < b && j < |rowq| && blocks[b] == rowq[j];
        StartUpTo(size, j, b);
        FirstCell(w, 3, q, 3, Start(size, b), b, b, j);
        OneContext(q, Start(size, j), q, Start(size, b));
        assert false;
      }
    }
  }

  // ---------------------------------------------------------------- exactly the forks

  lemma {:induction false} StartAtLeast(size: nat, n: nat)
    requires size > 0
    ensures Start(size, n) >= n
  {
    if n > 0 {
      StartAtLeast(size, n - 1);
    }
  }

  // Two prompts that fork: a run that admits nothing else and goes wrong.
  lemma ForkBreaks(p: seq<int32>, a: nat, q: seq<int32>, b: nat, size: nat) returns (w0: World, w: World)
    requires size > 0 && Fork(p, a, q, b, size)
    ensures Fresh(w0, size) && Reaches(w0, w) && w.seen == {p, q} && !ContentOk(w)
    ensures Repeats(q, size, b + 1) ==> !WorldOk(w)
  {
    hide At, Start, Fork, Chain, AllEvictable, Primed, Seat, Sizes, CacheableBlocks, Repeats, WorldOk, ContentOk, Row,
         Reaches, Initial, Fresh;
    ForkBound(p, a, q, b, size);
    var blocks, maxEntries := 2 * a + b + 1, 2 * a + b + 1;
    var width := blocks + a + |p| + |q|;
    StartAtLeast(size, width);
    w0 := Initial(blocks, 5, width, size, maxEntries);
    IsFresh(blocks, 5, width, size, maxEntries);
    var w1 := Admissions(p, q, blocks, width, size, maxEntries);
    var w2 := PassOver(w0, w1, p, q, a, size, width, maxEntries);
    var w3 := ClearOut(w0, w2, p, q, a, size, width, maxEntries);
    var w4 := Prime(w0, w3, p, q, a, b, size, width, maxEntries);
    w := WrongMatch(w0, w4, p, a, q, b, size, width, maxEntries);
  }

  // A system in which nothing has happened yet.
  ghost predicate Fresh(w: World, size: nat) {
    exists blocks, rows, width, maxEntries :: maxEntries > 0 && w == Initial(blocks, rows, width, size, maxEntries)
  }

  lemma IsFresh(blocks: nat, rows: nat, width: nat, size: nat, maxEntries: nat)
    requires maxEntries > 0
    ensures Fresh(Initial(blocks, rows, width, size, maxEntries), size)
  {
    hide Initial;
  }

  lemma ReachedInOrder(w0: World, w: World, size: nat)
    requires size > 0 && Fresh(w0, size) && Reaches(w0, w) && NoFork(w.seen, size)
    ensures WorldOk(w) && ContentOk(w)
  {
    hide WorldOk, ContentOk, NoFork, StepOf;
    var blocks, rows, width, maxEntries :| maxEntries > 0 && w0 == Initial(blocks, rows, width, size, maxEntries);
    InitialOk(blocks, rows, width, size, maxEntries);
    var ws, acts :| IsRun(ws, acts) && ws[0] == w0 && ws[|acts|] == w;
    EveryRun(ws, acts, |acts|);
  }

  // With a given set of prompts, nothing ever goes wrong - neither in the
  // accounting nor in the contents, in any system and any run - if and only if
  // no two of the prompts fork.
  lemma ExactlyForks(prompts: set<seq<int32>>, size: nat)
    requires size > 0
    ensures NoFork(prompts, size) <==>
              forall w0, w :: Fresh(w0, size) && Reaches(w0, w) && w.seen <= prompts ==> WorldOk(w) && ContentOk(w)
    ensures NoFork(prompts, size) <==>
              forall w0, w :: Fresh(w0, size) && Reaches(w0, w) && w.seen <= prompts ==> ContentOk(w)
  {
    hide WorldOk, ContentOk, Fork, Reaches, Fresh;
    if NoFork(prompts, size) {
      forall w0, w | Fresh(w0, size) && Reaches(w0, w) && w.seen <= prompts ensures WorldOk(w) && ContentOk(w) {
        ReachedInOrder(w0, w, size);
      }
    } else {
      var p, a, q, b :| p in prompts && q in prompts && Fork(p, a, q, b, size);
      var w0, w := ForkBreaks(p, a, q, b, size);
    }
  }

  // ---------------------------------------------------------------- a prompt that forks with itself

  // In blocks of two tokens: a block that hashes to 0, the same again, and the
  // last token, which is never shared.
  const ZERO_PROMPT: seq<int32> := ZeroHash.ZERO_BLOCK + ZeroHash.ZERO_BLOCK + [0]

  lemma ZeroPromptChain()
    ensures Start(2, 1) == 2 && Start(2, 2) == 4 && Start(2, 0) == 0 && |ZERO_PROMPT| == 5
    ensures BlockOf(ZERO_PROMPT, 2, 0) == ZeroHash.ZERO_BLOCK == BlockOf(ZERO_PROMPT, 2, 1)
    ensures Chain(ZERO_PROMPT, 2, 1) == 0 && Chain(ZERO_PROMPT, 2, 2) == 0 && CacheableBlocks(5, 2) == 2
  {
    hide Fnv.BlockHash;
    ZeroHash.ZeroBlockHashes();
    assert BlockOf(ZERO_PROMPT, 2, 0) == ZeroHash.ZERO_BLOCK;
    assert BlockOf(ZERO_PROMPT, 2, 1) == ZeroHash.ZERO_BLOCK;
    assert Chain(ZERO_PROMPT, 2, 0) == 0;
    assert Chain(ZERO_PROMPT, 2, 1) == Fnv.BlockHash(Chain(ZERO_PROMPT, 2, 0), BlockOf(ZERO_PROMPT, 2, 0));
    assert Chain(ZERO_PROMPT, 2, 2) == Fnv.BlockHash(Chain(ZERO_PROMPT, 2, 1), BlockOf(ZERO_PROMPT, 2, 1));
  }

  lemma ZeroPromptForks()
    ensures Repeats(ZERO_PROMPT, 2, 2) && Fork(ZERO_PROMPT, 0, ZERO_PROMPT, 1, 2)
  {
    hide Fnv.BlockHash, BlockOf;
    ZeroPromptChain();
    assert RepeatsAt(ZERO_PROMPT, 2, 2, 1);
    forall i, j | 0 <= i < 2 && 0 <= j < 2 ensures SteadyAt(ZERO_PROMPT, 2, i, j) {
      assert i == 0 || i == 1;
      assert j == 0 || j == 1;
    }
  }

  // Serving this one prompt twice mounts one block at two places of a row, and
  // the second place holds the KV of the first.
  lemma ZeroPromptBreaks()
    ensures exists w0, w :: Fresh(w0, 2) && Reaches(w0, w) && w.seen == {ZERO_PROMPT} && !WorldOk(w) && !ContentOk(w)
  {
    hide WorldOk, ContentOk, Fork, Reaches, Fresh, Repeats, ZERO_PROMPT;
    ZeroPromptForks();
    var w0, w := ForkBreaks(ZERO_PROMPT, 0, ZERO_PROMPT, 1, 2);
  }
}
