/**
 What a step of the serving state machine does to the sequences, said without
 the functions that compute the step; and the cache's bookkeeping of a whole
 prompt as a run of single steps.
 */
module StepEffects {
  import opened Wrappers
  import opened Bytes
  import opened BlockPool
  import opened KvStore
  import opened PrefixMatching
  import opened PrefixRecording
  import opened Serving
  import opened ServingSteps
  import opened ServingRuns

  // ---------------------------------------------------------------- one step

  // No sequence but this one comes, goes or changes, and neither does its row.
  ghost predicate OthersSame(w: World, w1: World, id: nat) {
    && w1.seqs.Keys - {id} == w.seqs.Keys - {id}
    && forall j :: j in w.seqs && j != id ==>
         j in w1.seqs && w1.seqs[j] == w.seqs[j] && Row(w1.store, w.seqs[j]) == Row(w.store, w.seqs[j])
  }

  // The sequence has the same tokens and blocks as before.
  ghost predicate SameTokens(w: World, w1: World, q: Sequence, q1: Sequence) {
    q1.prompt == q.prompt && Tokens(q1) == Tokens(q) && Row(w1.store, q1) == Row(w.store, q)
  }

  // No cell is written.
  ghost predicate NoWrite(w: World, w1: World) {
    w1.kv == w.kv
  }

  ghost predicate Effect(w: World, a: Action, w1: World) {
    match a
    case Admit(id, prompt, blocks, _) =>
      && id !in w.seqs && id in w1.seqs && NoWrite(w, w1)
      && var q1 := w1.seqs[id];
         && q1.prompt == prompt && Tokens(q1) == prompt && !q1.complete && q1.recorded == 0
         && Row(w1.store, q1) == blocks && Committed(q1) == Start(w.store.cache.blockSize, |blocks|)
    case GrowRow(id) =>
      && id in w.seqs && w1.seqs == w.seqs && NoWrite(w, w1)
      && var row, row1 := Row(w.store, w.seqs[id]), Row(w1.store, w.seqs[id]);
         && row <= row1 && |row1| <= |row| + 1
         && (row1 == row <==> |row| >= w.store.pool.width || |Referenced(w.store.pool)| == |w.store.pool.refs|)
    case PrefillChunk(id, take) =>
      && id in w.seqs && id in w1.seqs
      && var q, q1 := w.seqs[id], w1.seqs[id];
         && SameTokens(w, w1, q, q1) && q1.recorded == q.recorded
         && q1.progress == q.progress + take && (q1.complete <==> q1.progress == |q.prompt|)
    case DecodeToken(id, token) =>
      && id in w.seqs && id in w1.seqs
      && var q, q1 := w.seqs[id], w1.seqs[id];
         && q1.prompt == q.prompt && Tokens(q1) == Tokens(q) + [token] && Row(w1.store, q1) == Row(w.store, q)
         && q1.recorded == q.recorded && q1.progress == q.progress && Committed(q1) == |Tokens(q)|
    case RecordBlock(id) =>
      && id in w.seqs && id in w1.seqs && NoWrite(w, w1)
      && var q, q1 := w.seqs[id], w1.seqs[id];
         && SameTokens(w, w1, q, q1) && q1.progress == q.progress && q1.complete == q.complete
         && q1.recorded == q.recorded + 1
    case Preempt(id, keep) =>
      && id in w.seqs && id in w1.seqs && NoWrite(w, w1)
      && keep <= |Row(w.store, w.seqs[id])| && CutTo(w, w1, id, keep)
    case Retire(id) =>
      id in w.seqs && id !in w1.seqs && NoWrite(w, w1)
  }

  // A step that touches one row only, and no other sequence.
  lemma RowsStay(w: World, w1: World, id: nat)
    requires id in w.seqs && w1.seqs.Keys - {id} == w.seqs.Keys - {id}
    requires forall j :: j in w.seqs && j != id ==> j in w1.seqs && w1.seqs[j] == w.seqs[j]
    requires |w1.store.pool.tables| == |w.store.pool.tables|
    requires forall r :: 0 <= r < |w.store.pool.tables| && r != w.seqs[id].row ==>
               w1.store.pool.tables[r] == w.store.pool.tables[r]
    requires WorldOk(w)
    ensures OthersSame(w, w1, id)
  {
    hide WorldOk;
    forall j | j in w.seqs && j != id ensures Row(w1.store, w.seqs[j]) == Row(w.store, w.seqs[j]) {
      RowsDiffer(w, j, id);
    }
  }

  lemma AdmitEffect(w: World, id: nat, prompt: seq<int32>, blocks: seq<nat>, hashes: seq<u64>, w1: World)
    requires WorldOk(w) && AdmitStep(w, id, prompt, blocks, hashes, w1)
    ensures OthersSame(w, w1, id) && Effect(w, Admit(id, prompt, blocks, hashes), w1)
  {
    hide WorldOk, StoreOk, IsMatch, Start, AllocateBlocks, Increased, TouchAll, CacheableBlocks;
    var row := AllocateBlocks(w.store, 0).1;
    OrderedStore(w);
    ClaimRow(w, id, prompt);
    EnterKeeps(w, id, prompt, row);
    var w2 := Enter(w, id, prompt, row);
    MatchFits(w2.store, prompt, blocks, hashes);
    MountRows(w2, id, blocks, hashes);
    RowsStay(w2, w1, id);
    forall j | j in w.seqs && j != id
      ensures j in w1.seqs && w1.seqs[j] == w.seqs[j] && Row(w1.store, w.seqs[j]) == Row(w.store, w.seqs[j])
    {
      assert j in w2.seqs;
    }
    assert prompt + [] == prompt;
  }

  lemma OrderedStore(w: World)
    requires WorldOk(w)
    ensures StoreOk(w.store)
  {
    hide SeqOk, Tight, StoreOk, OwnRows, SharedPinned;
  }

  // Growing fails exactly when the row is full or every block is referenced.
  lemma GrowEffect(w: World, id: nat)
    requires WorldOk(w) && id in w.seqs
    ensures StoreOk(w.store)
    ensures OthersSame(w, Grow(w, id), id) && Effect(w, GrowRow(id), Grow(w, id))
  {
    hide WorldOk, StoreOk, Evicting, Referenced;
    OfWorld(w, id);
    var s, r := w.store, w.seqs[id].row;
    var (t, used) := AppendBlocks(s, r, 1);
    AppendKeeps(s, r, 1);
    if used < 0 {
      EvictingPool(s, t);
    } else {
      EvictingPool(s, ReclaimFor(s, 1));
    }
    if |s.pool.tables[r]| < s.pool.width {
      GrowsUnlessReferenced(s);
    } else {
      assert t == s;
    }
    RowsStay(w, Grow(w, id), id);
  }

  lemma GrowsUnlessReferenced(s: Store)
    requires StoreOk(s)
    ensures |ReclaimFor(s, 1).pool.free| < 1 <==> |Referenced(s.pool)| == |s.pool.refs|
  {
    hide StoreOk, Evicting, Inv, Parked, Referenced;
    var u := ReclaimFor(s, 1);
    ReclaimKeeps(s, 1);
    EvictingPool(s, u);
    StorePool(u);
    Conservation(u.pool);
    ReferencedSame(s.pool, u.pool);
    if |u.pool.free| < 1 {
      assert |s.pool.free| <= |u.pool.free|;
      ShortByOne(s, 1);
    }
  }

  lemma PrefillEffect(w: World, id: nat, take: nat)
    requires WorldOk(w) && id in w.seqs && w.store.cache.blockSize > 0 && MayPrefill(w, id, take)
    ensures OthersSame(w, Prefill(w, id, take), id) && Effect(w, PrefillChunk(id, take), Prefill(w, id, take))
  {
    hide WorldOk, KvAfter;
    RowsStay(w, Prefill(w, id, take), id);
  }

  lemma DecodeEffect(w: World, id: nat, token: int32)
    requires WorldOk(w) && id in w.seqs && w.store.cache.blockSize > 0 && MayDecode(w, id)
    ensures OthersSame(w, Decode(w, id, token), id) && Effect(w, DecodeToken(id, token), Decode(w, id, token))
  {
    hide WorldOk, KvAfter;
    var q := w.seqs[id];
    RowsStay(w, Decode(w, id, token), id);
    assert q.prompt + (q.generated + [token]) == q.prompt + q.generated + [token];
  }

  lemma RecordEffect(w: World, id: nat)
    requires WorldOk(w) && id in w.seqs && StoreOk(w.store) && MayRecord(w, id)
    requires RowKnown(w.store, w.seqs[id].prompt, Row(w.store, w.seqs[id]))
    ensures OthersSame(w, RecordNext(w, id), id) && Effect(w, RecordBlock(id), RecordNext(w, id))
  {
    hide WorldOk, StoreOk, RowKnown, Start, Record, Recording, CacheableBlocks;
    var q := w.seqs[id];
    RecordKeeps(w.store, q.prompt, Row(w.store, q), q.recorded);
    RecordingFrame(w.store, RecordNext(w, id).store, q.prompt, Row(w.store, q), q.recorded);
    RowsStay(w, RecordNext(w, id), id);
  }

  lemma CutElsewhere(w: World, id: nat, keep: nat)
    requires WorldOk(w) && id in w.seqs
    ensures Shape(w.store.pool) && w.seqs[id].row < |w.store.pool.tables|
    ensures var p := FreeFrom(w.store.pool, w.seqs[id].row, keep);
            && |p.tables| == |w.store.pool.tables|
            && forall r :: 0 <= r < |p.tables| && r != w.seqs[id].row ==> p.tables[r] == w.store.pool.tables[r]
  {
    hide WorldOk, StoreOk;
    OfWorld(w, id);
    StorePool(w.store);
    FreeFromKeeps(w.store.pool, w.seqs[id].row, keep);
  }

  // Every step does what is said above to its own sequence and nothing to others.
  lemma StepEffect(w: World, a: Action, w1: World)
    requires WorldOk(w) && StepOf(w, a, w1)
    ensures OthersSame(w, w1, a.id) && Effect(w, a, w1)
  {
    hide WorldOk, StoreOk, MayPrefill, MayDecode, MayRecord, AdmitStep, Start, RowKnown, Referenced, CutTo, Row,
         OthersSame, Prefill, Decode, RecordNext, Grow, FreeFrom, TruncatedSeq;
    match a {
      case Admit(id, prompt, blocks, hashes) =>
        AdmitEffect(w, id, prompt, blocks, hashes, w1);
      case GrowRow(id) =>
        GrowEffect(w, id);
      case PrefillChunk(id, take) =>
        PrefillEffect(w, id, take);
      case DecodeToken(id, token) =>
        DecodeEffect(w, id, token);
      case RecordBlock(id) =>
        RecordEffect(w, id);
      case Preempt(id, keep) =>
        TruncateKeeps(w, id, keep);
        CutElsewhere(w, id, keep);
        RowsStay(w, w1, id);
      case Retire(id) =>
        CutElsewhere(w, id, 0);
        RowsStay(w, w1, id);
    }
  }

  // ---------------------------------------------------------------- a whole prompt

  // The sequence may record its blocks up to n.
  ghost predicate MayRecordTo(w: World, id: nat, n: nat)
    requires id in w.seqs
  {
    var q, size := w.seqs[id], w.store.cache.blockSize;
    && q.recorded <= n <= |Row(w.store, q)|
    && (n > q.recorded ==> size > 0 && n <= CacheableBlocks(|q.prompt|, size) && Start(size, n) <= q.progress)
  }

  lemma OfSeq(w: World, id: nat, n: nat)
    requires WorldOk(w) && id in w.seqs && MayRecordTo(w, id, n)
    ensures StoreOk(w.store) && RowKnown(w.store, w.seqs[id].prompt, Row(w.store, w.seqs[id]))
    ensures w.seqs[id].progress <= |w.seqs[id].prompt|
    ensures Start(w.store.cache.blockSize, n) <= |w.seqs[id].prompt|
  {
    hide WorldOk, StoreOk, RowKnown, Start, Shielded, CacheableBlocks;
    OfWorld(w, id);
  }

  lemma FirstMay(w: World, id: nat, n: nat)
    requires WorldOk(w) && id in w.seqs && MayRecordTo(w, id, n) && w.seqs[id].recorded < n
    ensures MayRecord(w, id)
  {
    hide WorldOk, StoreOk, RowKnown, Start, CacheableBlocks;
    OfSeq(w, id, n);
    StartUpTo(w.store.cache.blockSize, w.seqs[id].recorded + 1, n);
  }

  lemma OneRecorded(w: World, id: nat, n: nat, w1: World)
    requires id in w.seqs && MayRecord(w, id) && MayRecordTo(w, id, n) && w.seqs[id].recorded < n
    requires StoreOk(w.store) && RowKnown(w.store, w.seqs[id].prompt, Row(w.store, w.seqs[id]))
    requires w1 == RecordNext(w, id) && WorldOk(w)
    ensures StepOf(w, RecordBlock(id), w1)
    ensures WorldOk(w1) && id in w1.seqs && MayRecordTo(w1, id, n)
    ensures Row(w1.store, w1.seqs[id]) == Row(w.store, w.seqs[id])
  {
    hide WorldOk, StoreOk, RowKnown, Start, Record, Recording, CacheableBlocks, MayRecord;
    RecordNextKeeps(w, id);
    RecordSize(w, id);
    RecordEffect(w, id);
  }

  lemma NextFrom(s: Store, prompt: seq<int32>, row: seq<nat>, b: nat, n: nat)
    requires StoreOk(s) && RowKnown(s, prompt, row) && b < n <= |row| && Start(s.cache.blockSize, n) <= |prompt|
    ensures Start(s.cache.blockSize, b + 1) <= |prompt|
    ensures var t := Record(s, prompt, row, b);
            && StoreOk(t) && RowKnown(t, prompt, row) && t.cache.blockSize == s.cache.blockSize
            && RecordFrom(t, prompt, row, b + 1, n) == RecordFrom(s, prompt, row, b, n)
  {
    hide StoreOk, RowKnown, Record, Recording, Start, OnlyNew, Chain;
    StartUpTo(s.cache.blockSize, b + 1, n);
    RecordKeeps(s, prompt, row, b);
    RecordingFrame(s, Record(s, prompt, row, b), prompt, row, b);
  }

  // The state after blocks [recorded, n) have been recorded in one call.
  function AfterRecording(w: World, id: nat, n: nat): World
    requires id in w.seqs && StoreOk(w.store)
    requires var q := w.seqs[id];
             && RowKnown(w.store, q.prompt, Row(w.store, q)) && q.recorded <= n <= |Row(w.store, q)|
             && Start(w.store.cache.blockSize, n) <= |q.prompt|
  {
    var q := w.seqs[id];
    w.(store := RecordFrom(w.store, q.prompt, Row(w.store, q), q.recorded, n), seqs := w.seqs[id := q.(recorded := n)])
  }

  // Recording several blocks in one call is a run of single recordings, each of
  // which the sequence may make: what holds over every run holds for it.
  lemma {:induction false} RecordedInSteps(w: World, id: nat, n: nat) returns (ws: seq<World>, acts: seq<Action>)
    requires WorldOk(w) && id in w.seqs && MayRecordTo(w, id, n)
    ensures StoreOk(w.store) && RowKnown(w.store, w.seqs[id].prompt, Row(w.store, w.seqs[id]))
    ensures Start(w.store.cache.blockSize, n) <= |w.seqs[id].prompt|
    ensures IsRun(ws, acts) && ws[0] == w && ws[|acts|] == AfterRecording(w, id, n)
    ensures |acts| == n - w.seqs[id].recorded && forall k :: 0 <= k < |acts| ==> acts[k] == RecordBlock(id)
    decreases n - w.seqs[id].recorded
  {
    hide WorldOk, StoreOk, RowKnown, Start, CacheableBlocks, Record, StepOf, MayRecordTo, MayRecord, Row;
    var q := w.seqs[id];
    OfSeq(w, id, n);
    if n == q.recorded {
      ws, acts := [w], [];
      assert w.seqs[id := q.(recorded := n)] == w.seqs;
    } else {
      Within(w, id, n);
      NextFrom(w.store, q.prompt, Row(w.store, q), q.recorded, n);
      FirstMay(w, id, n);
      var w1 := RecordNext(w, id);
      OneRecorded(w, id, n, w1);
      var ws1, acts1 := RecordedInSteps(w1, id, n);
      ws, acts := [w] + ws1, [RecordBlock(id)] + acts1;
      LongerRun(w, RecordBlock(id), ws1, acts1);
      assert w1.seqs[id := w1.seqs[id].(recorded := n)] == w.seqs[id := q.(recorded := n)];
    }
  }

  lemma Within(w: World, id: nat, n: nat)
    requires id in w.seqs && MayRecordTo(w, id, n)
    ensures w.seqs[id].recorded <= n <= |Row(w.store, w.seqs[id])|
  {
    hide Row, Start, CacheableBlocks;
  }

  lemma LongerRun(w: World, a: Action, ws: seq<World>, acts: seq<Action>)
    requires IsRun(ws, acts) && StepOf(w, a, ws[0])
    ensures IsRun([w] + ws, [a] + acts)
  {
    hide StepOf;
    var ws1, acts1 := [w] + ws, [a] + acts;
    forall k | 0 <= k < |acts1| ensures StepOf(ws1[k], acts1[k], ws1[k + 1]) {
      if k > 0 {
        assert StepOf(ws[k - 1], acts[k - 1], ws[k]);
      }
    }
  }
}
