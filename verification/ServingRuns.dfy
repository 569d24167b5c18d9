/**
 Writing and recording KV, and what holds over every run.
 */
module ServingRuns {
  import opened Wrappers
  import opened Bytes
  import opened BlockPool
  import opened KvStore
  import opened PrefixMatching
  import opened PrefixRecording
  import opened Serving
  import opened ServingSteps

  // ---------------------------------------------------------------- writing

  // The sequence may write positions [lo, hi): its row reaches that far, and it
  // has committed everything before.
  ghost predicate MayWrite(w: World, q: Sequence, lo: nat, hi: nat) {
    && w.store.cache.blockSize > 0
    && (lo >= q.progress || lo + 1 >= |q.prompt|)
    && hi <= |Tokens(q)| && hi <= Start(w.store.cache.blockSize, |Row(w.store, q)|)
    && lo <= Committed(q)
  }

  function KvAfter(w: World, q: Sequence, lo: nat, hi: nat): Kv
    requires w.store.cache.blockSize > 0
    requires hi <= |Tokens(q)| && hi <= Start(w.store.cache.blockSize, |Row(w.store, q)|)
  {
    Written(w.kv, w.store.cache.blockSize, Row(w.store, q), Tokens(q), lo, hi)
  }

  // Every block written is private.
  lemma WrittenArePrivate(w: World, id: nat, lo: nat, hi: nat)
    requires WorldOk(w) && id in w.seqs && MayWrite(w, w.seqs[id], lo, hi)
    ensures forall i :: 0 <= i < |Row(w.store, w.seqs[id])| && lo < Start(w.store.cache.blockSize, i) + w.store.cache.blockSize
              ==> PrivateBlock(w, id, Row(w.store, w.seqs[id])[i])
  {
    hide WorldOk, Start, PrivateBlock;
    var size := w.store.cache.blockSize;
    forall i | 0 <= i < |Row(w.store, w.seqs[id])| && lo < Start(size, i) + size
      ensures PrivateBlock(w, id, Row(w.store, w.seqs[id])[i])
    {
      WritesArePrivate(w, id, i, size - 1);
    }
  }

  lemma EntriesSurvive(w: World, id: nat, lo: nat, hi: nat, h: u64)
    requires WorldOk(w) && id in w.seqs && MayWrite(w, w.seqs[id], lo, hi)
    requires h in w.store.cache.entries && EntryTrue(w, h)
    ensures EntryTrue(w.(kv := KvAfter(w, w.seqs[id], lo, hi)), h)
  {
    hide WorldOk, EntryFrom, MayWrite;
    OfMayWrite(w, w.seqs[id], lo, hi);
    var size, e := w.store.cache.blockSize, w.store.cache.entries[h];
    var p, k: nat :| p in w.seen && EntryFrom(w.kv, size, h, e, p, k);
    EntrySurvives(w, id, lo, hi, h, p, k);
    assert EntryFrom(KvAfter(w, w.seqs[id], lo, hi), size, h, e, p, k);
  }

  lemma EntrySurvives(w: World, id: nat, lo: nat, hi: nat, h: u64, p: seq<int32>, k: nat)
    requires WorldOk(w) && id in w.seqs && MayWrite(w, w.seqs[id], lo, hi) && h in w.store.cache.entries
    requires EntryFrom(w.kv, w.store.cache.blockSize, h, w.store.cache.entries[h], p, k)
    ensures EntryFrom(KvAfter(w, w.seqs[id], lo, hi), w.store.cache.blockSize, h, w.store.cache.entries[h], p, k)
  {
    hide WorldOk, Start, Chain, Holds, BlockOf;
    var size, e, q := w.store.cache.blockSize, w.store.cache.entries[h], w.seqs[id];
    WrittenArePrivate(w, id, lo, hi);
    forall o | 0 <= o < size ensures BlockCell(KvAfter(w, q, lo, hi), size, e.block, p, k, o) {
      assert BlockCell(w.kv, size, e.block, p, k, o);
      WrittenElsewhere(w.kv, size, Row(w.store, q), Tokens(q), lo, hi, e.block, o, p[..Start(size, k) + o + 1]);
    }
  }

  lemma OthersSurvive(w: World, id: nat, lo: nat, hi: nat, j: nat)
    requires WorldOk(w) && id in w.seqs && MayWrite(w, w.seqs[id], lo, hi)
    requires j in w.seqs && j != id && SeqTrue(w, w.seqs[j])
    ensures SeqTrue(w.(kv := KvAfter(w, w.seqs[id], lo, hi)), w.seqs[j])
  {
    hide WorldOk, Start, Holds;
    var size, q, r := w.store.cache.blockSize, w.seqs[id], w.seqs[j];
    var row, tokens := Row(w.store, r), Tokens(r);
    var kv1 := KvAfter(w, q, lo, hi);
    WrittenArePrivate(w, id, lo, hi);
    forall i, o | 0 <= i < |row| && Inside(size, Committed(r), i, o) ensures CellTrue(kv1, size, row, tokens, i, o) {
      assert CellTrue(w.kv, size, row, tokens, i, o);
      assert row[i] in row;
      WrittenElsewhere(w.kv, size, Row(w.store, q), Tokens(q), lo, hi, row[i], o, tokens[..Start(size, i) + o + 1]);
    }
  }

  lemma OwnCells(w: World, q: Sequence, lo: nat, hi: nat)
    requires MayWrite(w, q, lo, hi) && NoDup(Row(w.store, q)) && SeqTrue(w, q)
    ensures CellsTrue(KvAfter(w, q, lo, hi), w.store.cache.blockSize, Row(w.store, q), Tokens(q), hi)
  {
    hide Start, NoDup;
    var size, row, tokens := w.store.cache.blockSize, Row(w.store, q), Tokens(q);
    var kv1 := KvAfter(w, q, lo, hi);
    forall i, o | 0 <= i < |row| && Inside(size, hi, i, o) ensures CellTrue(kv1, size, row, tokens, i, o) {
      WrittenInRow(w.kv, size, row, tokens, lo, hi, i, o);
      if Start(size, i) + o < lo {
        assert Inside(size, Committed(q), i, o);
        assert CellTrue(w.kv, size, row, tokens, i, o);
      }
    }
  }

  // ---------------------------------------------------------------- prefill

  ghost predicate MayPrefill(w: World, id: nat, take: nat)
    requires id in w.seqs
  {
    var q, size := w.seqs[id], w.store.cache.blockSize;
    && (w.growing == None || w.growing == Some(id))
    && !q.complete && take > 0 && q.progress + take <= |q.prompt|
    && q.progress + take <= Start(size, |Row(w.store, q)|)
    && (Row(w.store, q) != [] ==> Start(size, |Row(w.store, q)| - 1) < q.progress + take)
  }

  // The next `take` prompt tokens are computed; the chunk uses every block the
  // sequence holds.
  function Prefill(w: World, id: nat, take: nat): World
    requires id in w.seqs && w.store.cache.blockSize > 0 && w.seqs[id].progress + take <= |w.seqs[id].prompt|
    requires w.seqs[id].progress + take <= Start(w.store.cache.blockSize, |Row(w.store, w.seqs[id])|)
  {
    var q := w.seqs[id];
    w.(kv := KvAfter(w, q, q.progress, q.progress + take),
       seqs := w.seqs[id := q.(progress := q.progress + take, complete := q.progress + take >= |q.prompt|)],
       growing := None)
  }

  // Nothing but private blocks is written: every other cell is as it was.
  ghost predicate OthersUntouched(w: World, w1: World, id: nat) {
    forall b, o, c :: Holds(w.kv, b, o, c) && !PrivateBlock(w, id, b) ==> Holds(w1.kv, b, o, c)
  }

  lemma OnlyPrivateWritten(w: World, w1: World, id: nat, lo: nat, hi: nat)
    requires WorldOk(w) && id in w.seqs && MayWrite(w, w.seqs[id], lo, hi)
    requires w1.kv == KvAfter(w, w.seqs[id], lo, hi)
    ensures OthersUntouched(w, w1, id)
  {
    hide WorldOk, Start, PrivateBlock, Holds;
    var size, q := w.store.cache.blockSize, w.seqs[id];
    WrittenArePrivate(w, id, lo, hi);
    forall b, o, c | Holds(w.kv, b, o, c) && !PrivateBlock(w, id, b) ensures Holds(w1.kv, b, o, c) {
      WrittenElsewhere(w.kv, size, Row(w.store, q), Tokens(q), lo, hi, b, o, c);
    }
  }

  // Another sequence state over the same row and store.
  lemma ServedWorld(w: World, w1: World, id: nat)
    requires WorldOk(w) && id in w.seqs && (w.growing == None || w.growing == Some(id))
    requires w1.store == w.store && w1.growing == None && w1.seen == w.seen && id in w1.seqs
    requires w1.seqs == w.seqs[id := w1.seqs[id]] && w1.seqs[id].row == w.seqs[id].row
    requires w1.seqs[id].prompt == w.seqs[id].prompt && SeqOk(w.store, w1.seqs[id]) && Tight(w.store, w1.seqs[id])
    ensures WorldOk(w1)
  {
    hide StoreOk, SeqOk, Tight, OwnRows, SharedPinned;
    MountOwnRows(w, w1, id);
  }

  lemma PrefillSeq(s: Store, q: Sequence, take: nat)
    requires SeqOk(s, q) && !q.complete && take > 0 && q.progress + take <= |q.prompt|
    requires q.progress + take <= Start(s.cache.blockSize, |Row(s, q)|)
    requires Row(s, q) != [] ==> Start(s.cache.blockSize, |Row(s, q)| - 1) < q.progress + take
    ensures var q1 := q.(progress := q.progress + take, complete := q.progress + take >= |q.prompt|);
            SeqOk(s, q1) && Tight(s, q1) && Committed(q1) == q.progress + take && Tokens(q1) == Tokens(q)
  {
    hide RowKnown, Start, Pinned;
    var q1 := q.(progress := q.progress + take, complete := q.progress + take >= |q.prompt|);
    assert Row(s, q1) == Row(s, q);
  }

  lemma PrefillKeeps(w: World, id: nat, take: nat)
    requires WorldOk(w) && id in w.seqs && MayPrefill(w, id, take)
    ensures w.store.cache.blockSize > 0
    ensures WorldOk(Prefill(w, id, take)) && OthersUntouched(w, Prefill(w, id, take), id)
    ensures Committed(Prefill(w, id, take).seqs[id]) == Committed(w.seqs[id]) + take
    ensures ContentOk(w) ==> ContentOk(Prefill(w, id, take))
  {
    hide WorldOk, SeqOk, StoreOk, Tight, EntryTrue, CellsTrue, Start, KvAfter, NoDup, OthersUntouched;
    OfWorld(w, id);
    CacheSize(w.store);
    var q := w.seqs[id];
    var lo, hi := q.progress, q.progress + take;
    InTable(w.store, q);
    PrefillSeq(w.store, q, take);
    var w1 := Prefill(w, id, take);
    ServedWorld(w, w1, id);
    assert MayWrite(w, q, lo, hi);
    OnlyPrivateWritten(w, w1, id, lo, hi);
    if ContentOk(w) {
      WriteContent(w, w1, id, lo, hi);
      OwnCells(w, q, lo, hi);
    }
  }

  // After a write, all contents but the writer's are as they should be.
  lemma WriteContent(w: World, w1: World, id: nat, lo: nat, hi: nat)
    requires WorldOk(w) && ContentOk(w) && id in w.seqs && MayWrite(w, w.seqs[id], lo, hi)
    requires w1.store == w.store && w1.seen == w.seen && w1.kv == KvAfter(w, w.seqs[id], lo, hi) && id in w1.seqs
    requires w1.seqs == w.seqs[id := w1.seqs[id]]
    ensures forall h :: h in w1.store.cache.entries ==> EntryTrue(w1, h)
    ensures forall i :: i in w1.seqs && i != id ==> SeqTrue(w1, w1.seqs[i])
  {
    hide WorldOk, Start, KvAfter, EntryFrom, CellsTrue, MayWrite;
    assert w.store.cache.blockSize > 0 && hi <= |Tokens(w.seqs[id])|
           && hi <= Start(w.store.cache.blockSize, |Row(w.store, w.seqs[id])|) by {
      OfMayWrite(w, w.seqs[id], lo, hi);
    }
    var w2 := w.(kv := KvAfter(w, w.seqs[id], lo, hi));
    forall h | h in w.store.cache.entries ensures EntryTrue(w1, h) {
      EntriesSurvive(w, id, lo, hi, h);
      assert EntryTrue(w2, h);
    }
    forall i | i in w.seqs && i != id ensures SeqTrue(w1, w.seqs[i]) {
      OthersSurvive(w, id, lo, hi, i);
      assert SeqTrue(w2, w.seqs[i]);
    }
  }

  lemma OfMayWrite(w: World, q: Sequence, lo: nat, hi: nat)
    requires MayWrite(w, q, lo, hi)
    ensures w.store.cache.blockSize > 0
    ensures hi <= |Tokens(q)| && hi <= Start(w.store.cache.blockSize, |Row(w.store, q)|)
  {}

  // ---------------------------------------------------------------- decode

  // The position whose KV a decode step computes: of the last token so far.
  function DecodePosition(q: Sequence): nat
    requires q.prompt != []
  {
    |q.prompt| + |q.generated| - 1
  }

  ghost predicate MayDecode(w: World, id: nat)
    requires id in w.seqs
  {
    var q := w.seqs[id];
    && (w.growing == None || w.growing == Some(id))
    && q.complete && q.prompt != []
    && DecodePosition(q) < Start(w.store.cache.blockSize, |Row(w.store, q)|)
  }

  function Decode(w: World, id: nat, token: int32): World
    requires id in w.seqs && w.store.cache.blockSize > 0 && w.seqs[id].prompt != []
    requires DecodePosition(w.seqs[id]) < Start(w.store.cache.blockSize, |Row(w.store, w.seqs[id])|)
  {
    var q := w.seqs[id];
    w.(kv := KvAfter(w, q, DecodePosition(q), DecodePosition(q) + 1),
       seqs := w.seqs[id := q.(generated := q.generated + [token])],
       growing := None)
  }

  lemma DecodeSeq(s: Store, q: Sequence, token: int32)
    requires SeqOk(s, q) && q.complete && q.prompt != []
    requires DecodePosition(q) < Start(s.cache.blockSize, |Row(s, q)|)
    ensures var q1 := q.(generated := q.generated + [token]);
            && SeqOk(s, q1) && Tight(s, q1) && Committed(q1) == DecodePosition(q) + 1
            && Tokens(q) <= Tokens(q1) && |Tokens(q)| == DecodePosition(q) + 1 && DecodePosition(q) <= Committed(q)
  {
    hide RowKnown, Start, Pinned;
    var q1 := q.(generated := q.generated + [token]);
    assert Row(s, q1) == Row(s, q);
  }

  lemma MoreTokens(kv: Kv, size: nat, row: seq<nat>, tokens: seq<int32>, tokens1: seq<int32>, n: nat)
    requires CellsTrue(kv, size, row, tokens, n) && tokens <= tokens1
    ensures CellsTrue(kv, size, row, tokens1, n)
  {
    hide Start;
    forall i, o | 0 <= i < |row| && Inside(size, n, i, o) ensures CellTrue(kv, size, row, tokens1, i, o) {
      assert CellTrue(kv, size, row, tokens, i, o);
      SamePart(tokens, tokens1, |tokens|, Start(size, i) + o + 1);
    }
  }

  lemma DecodeKeeps(w: World, id: nat, token: int32)
    requires WorldOk(w) && id in w.seqs && MayDecode(w, id)
    ensures w.store.cache.blockSize > 0
    ensures WorldOk(Decode(w, id, token)) && OthersUntouched(w, Decode(w, id, token), id)
    ensures Committed(Decode(w, id, token).seqs[id]) == DecodePosition(w.seqs[id]) + 1
    ensures ContentOk(w) ==> ContentOk(Decode(w, id, token))
  {
    hide WorldOk, SeqOk, StoreOk, Tight, EntryTrue, CellsTrue, Start, KvAfter, NoDup, OthersUntouched;
    OfWorld(w, id);
    CacheSize(w.store);
    var q := w.seqs[id];
    var lo, hi := DecodePosition(q), DecodePosition(q) + 1;
    InTable(w.store, q);
    DecodeSeq(w.store, q, token);
    var w1 := Decode(w, id, token);
    ServedWorld(w, w1, id);
    assert MayWrite(w, q, lo, hi);
    OnlyPrivateWritten(w, w1, id, lo, hi);
    if ContentOk(w) {
      WriteContent(w, w1, id, lo, hi);
      OwnCells(w, q, lo, hi);
      MoreTokens(w1.kv, w.store.cache.blockSize, Row(w.store, q), Tokens(q), Tokens(w1.seqs[id]), hi);
    }
  }

  // ---------------------------------------------------------------- recording

  ghost predicate MayRecord(w: World, id: nat)
    requires id in w.seqs
  {
    var q, size := w.seqs[id], w.store.cache.blockSize;
    && size > 0 && q.recorded < CacheableBlocks(|q.prompt|, size) && q.recorded < |Row(w.store, q)|
    && Start(size, q.recorded + 1) <= q.progress && q.progress <= |q.prompt|
  }

  // The next committed block of the prompt is offered to the cache.
  function RecordNext(w: World, id: nat): World
    requires id in w.seqs && StoreOk(w.store) && MayRecord(w, id)
    requires RowKnown(w.store, w.seqs[id].prompt, Row(w.store, w.seqs[id]))
  {
    var q := w.seqs[id];
    w.(store := Record(w.store, q.prompt, Row(w.store, q), q.recorded),
       seqs := w.seqs[id := q.(recorded := q.recorded + 1)])
  }

  // Unless the block is shareable already, it belongs to this sequence alone.
  lemma RecordedIsPrivate(w: World, id: nat)
    requires WorldOk(w) && id in w.seqs && MayRecord(w, id)
    requires Chain(w.seqs[id].prompt, w.store.cache.blockSize, w.seqs[id].recorded + 1) !in w.store.cache.entries
    ensures PrivateBlock(w, id, Row(w.store, w.seqs[id])[w.seqs[id].recorded])
  {
    hide WorldOk, StoreOk, SeqOk, Start, Chain, PrivateBlock, CacheableBlocks, Pinned;
    OfWorld(w, id);
    NoEntryUnpinned(w.store, w.seqs[id]);
    UnpinnedIsPrivate(w, id, w.seqs[id].recorded);
  }

  lemma NoEntryUnpinned(s: Store, q: Sequence)
    requires SeqOk(s, q) && q.recorded < |Row(s, q)| && Start(s.cache.blockSize, q.recorded + 1) <= |q.prompt|
    requires Chain(q.prompt, s.cache.blockSize, q.recorded + 1) !in s.cache.entries
    ensures !Pinned(s, Row(s, q)[q.recorded])
  {
    hide Start, Chain, Shielded;
    assert Known(s, q.prompt, Row(s, q), q.recorded);
  }

  lemma RecordSeqs(w: World, id: nat, t: Store)
    requires WorldOk(w) && id in w.seqs && MayRecord(w, id)
    requires RowKnown(w.store, w.seqs[id].prompt, Row(w.store, w.seqs[id]))
    requires t == Record(w.store, w.seqs[id].prompt, Row(w.store, w.seqs[id]), w.seqs[id].recorded)
    ensures forall j :: j in w.seqs && j != id ==>
              && SeqOk(t, w.seqs[j]) && Row(t, w.seqs[j]) == Row(w.store, w.seqs[j])
              && (Tight(w.store, w.seqs[j]) ==> Tight(t, w.seqs[j]))
  {
    hide WorldOk, StoreOk, Start, Chain, RowKnown, Tight, SeqOk, Record, CacheableBlocks;
    var s, q := w.store, w.seqs[id];
    OfWorld(w, id);
    forall j | j in w.seqs && j != id
      ensures SeqOk(t, w.seqs[j]) && Row(t, w.seqs[j]) == Row(s, w.seqs[j])
      ensures Tight(s, w.seqs[j]) ==> Tight(t, w.seqs[j])
    {
      OfWorld(w, j);
      RecordOther(w, id, t, j);
    }
  }

  lemma RecordOther(w: World, id: nat, t: Store, j: nat)
    requires WorldOk(w) && id in w.seqs && MayRecord(w, id) && j in w.seqs && j != id
    requires RowKnown(w.store, w.seqs[id].prompt, Row(w.store, w.seqs[id]))
    requires t == Record(w.store, w.seqs[id].prompt, Row(w.store, w.seqs[id]), w.seqs[id].recorded)
    ensures SeqOk(t, w.seqs[j]) && Row(t, w.seqs[j]) == Row(w.store, w.seqs[j])
    ensures Tight(w.store, w.seqs[j]) ==> Tight(t, w.seqs[j])
  {
    hide WorldOk, StoreOk, Start, Chain, RowKnown, Tight, Shielded, CacheableBlocks, Recording, MakeRoom;
    var s, q, r := w.store, w.seqs[id], w.seqs[j];
    OfWorld(w, id);
    OfWorld(w, j);
    if Chain(q.prompt, s.cache.blockSize, q.recorded + 1) in s.cache.entries {
      assert t == s;
    } else {
      RecordedIsPrivate(w, id);
      RecordKeeps(s, q.prompt, Row(s, q), q.recorded);
      RecordingFrame(s, t, q.prompt, Row(s, q), q.recorded);
      RecordingOthers(s, t, q.prompt, Row(s, q), q.recorded, r.prompt, Row(s, r));
      SeqFrame(s, t, r);
    }
  }

  lemma RecordOwn(s: Store, t: Store, q: Sequence)
    requires SeqOk(s, q) && q.recorded < |Row(s, q)| && s.cache.blockSize > 0
    requires q.recorded < CacheableBlocks(|q.prompt|, s.cache.blockSize)
    requires Start(s.cache.blockSize, q.recorded + 1) <= q.progress && t.cache.blockSize == s.cache.blockSize
    requires RowKnown(t, q.prompt, Row(s, q))
    requires t.pool == s.pool.(free := t.pool.free, cached := t.pool.cached) && |t.pool.cached| == |s.pool.cached|
    requires forall c :: 0 <= c < |t.pool.cached| && t.pool.cached[c] ==> s.pool.cached[c] || c == Row(s, q)[q.recorded]
    ensures SeqOk(t, q.(recorded := q.recorded + 1)) && Row(t, q) == Row(s, q)
    ensures Row(t, q.(recorded := q.recorded + 1)) == Row(s, q)
    ensures Tight(s, q) ==> Tight(t, q.(recorded := q.recorded + 1))
  {
    hide Start, Known;
    var row, b, size := Row(s, q), q.recorded, s.cache.blockSize;
    StartUpTo(size, b + 1, CacheableBlocks(|q.prompt|, size));
    forall i | 0 <= i < |row| && Pinned(t, row[i])
      ensures Start(size, i + 1) <= q.progress && Start(size, i + 1) < |q.prompt|
    {
      assert row[i] == row[b] ==> i == b;
    }
  }

  lemma RecordNextKeeps(w: World, id: nat)
    requires WorldOk(w) && id in w.seqs && MayRecord(w, id)
    ensures StoreOk(w.store) && RowKnown(w.store, w.seqs[id].prompt, Row(w.store, w.seqs[id]))
    ensures WorldOk(RecordNext(w, id))
    ensures ContentOk(w) ==> ContentOk(RecordNext(w, id))
  {
    hide StoreOk, SeqOk, Tight, EntryTrue, SeqTrue, Start, Chain, OwnRows, SharedPinned, RowKnown, Recording, Record,
         CacheableBlocks, OnlyNew, BlockOf;
    var s, q := w.store, w.seqs[id];
    OfWorld(w, id);
    SeqKnown(s, q);
    var w1 := RecordNext(w, id);
    var t := w1.store;
    RecordKeeps(s, q.prompt, Row(s, q), q.recorded);
    RecordingFrame(s, t, q.prompt, Row(s, q), q.recorded);
    RecordSeqs(w, id, t);
    RecordOwn(s, t, q);
    MountOwnRows(w, w1, id);
    RecordShared(s, t);
    if ContentOk(w) {
      SeqsStay(w, w1, id);
      RecordContent(w, w1, id);
    }
  }

  lemma SeqKnown(s: Store, q: Sequence)
    requires SeqOk(s, q)
    ensures RowKnown(s, q.prompt, Row(s, q))
  {
    hide RowKnown, Start, Shielded;
  }

  lemma RecordShared(s: Store, t: Store)
    requires StoreOk(s) && SharedPinned(s.pool)
    requires t.pool == s.pool.(free := t.pool.free, cached := t.pool.cached) && |t.pool.cached| == |s.pool.cached|
    requires forall c :: 0 <= c < |s.pool.refs| == |s.pool.cached| && s.pool.cached[c] && s.pool.refs[c] > 0 ==>
               c < |t.pool.cached| && t.pool.cached[c]
    ensures SharedPinned(t.pool)
  {
    StoreSizes(s);
    hide StoreOk;
  }

  // The entry made describes what the block holds.
  lemma RecordContent(w: World, w1: World, id: nat)
    requires WorldOk(w) && ContentOk(w) && id in w.seqs && MayRecord(w, id)
    requires w1.kv == w.kv && w1.seen == w.seen && id in w1.seqs
    requires w1.store.cache.blockSize == w.store.cache.blockSize
    requires var q, size := w.seqs[id], w.store.cache.blockSize;
             OnlyNew(w.store.cache, w1.store.cache, Chain(q.prompt, size, q.recorded + 1),
                     EntryFor(q.prompt, size, q.recorded, Row(w.store, q)[q.recorded]))
    requires Row(w1.store, w1.seqs[id]) == Row(w.store, w.seqs[id])
    requires w1.seqs[id] == w.seqs[id].(recorded := w.seqs[id].recorded + 1)
    ensures forall g :: g in w1.store.cache.entries ==> EntryTrue(w1, g)
    ensures SeqTrue(w1, w1.seqs[id])
  {
    hide WorldOk, Start, Chain, CellsTrue, BlockOf, CacheableBlocks;
    var q, size := w.seqs[id], w.store.cache.blockSize;
    assert SeqTrue(w, q);
    assert q.prompt in w.seen by {
      SeenPrompt(w, id);
    }
    RecordedEntry(w, q);
    assert Tokens(w1.seqs[id]) == Tokens(q) && Committed(w1.seqs[id]) == Committed(q);
    hide EntryFrom;
    forall g | g in w1.store.cache.entries ensures EntryTrue(w1, g) {
      if g in w.store.cache.entries && w1.store.cache.entries[g] == w.store.cache.entries[g] {
        assert EntryTrue(w, g);
      } else {
        assert EntryFrom(w1.kv, size, g, w1.store.cache.entries[g], q.prompt, q.recorded);
      }
    }
  }

  lemma SeenPrompt(w: World, id: nat)
    requires WorldOk(w) && id in w.seqs
    ensures w.seqs[id].prompt in w.seen && w.seqs[id].progress <= Committed(w.seqs[id])
  {
    hide StoreOk, RowKnown, Start, Shielded, Tight;
    assert SeqOk(w.store, w.seqs[id]);
  }

  lemma RecordedEntry(w: World, q: Sequence)
    requires SeqTrue(w, q) && w.store.cache.blockSize > 0 && q.recorded < |Row(w.store, q)|
    requires Start(w.store.cache.blockSize, q.recorded + 1) <= q.progress <= |q.prompt|
    requires q.recorded < CacheableBlocks(|q.prompt|, w.store.cache.blockSize)
    ensures EntryFrom(w.kv, w.store.cache.blockSize, Chain(q.prompt, w.store.cache.blockSize, q.recorded + 1),
                      EntryFor(q.prompt, w.store.cache.blockSize, q.recorded, Row(w.store, q)[q.recorded]),
                      q.prompt, q.recorded)
  {
    hide Chain, BlockOf;
    CacheableFits(q.prompt, w.store.cache.blockSize, q.recorded);
    var size, b := w.store.cache.blockSize, q.recorded;
    StartNext(size, b);
    hide Start;
    forall o | 0 <= o < size ensures BlockCell(w.kv, size, Row(w.store, q)[b], q.prompt, b, o) {
      assert Inside(size, Committed(q), b, o);
      assert CellTrue(w.kv, size, Row(w.store, q), Tokens(q), b, o);
      SamePart(q.prompt, Tokens(q), |q.prompt|, Start(size, b) + o + 1);
    }
  }

  // ---------------------------------------------------------------- runs

  datatype Action =
    | Admit(id: nat, prompt: seq<int32>, blocks: seq<nat>, hashes: seq<u64>)
    | GrowRow(id: nat)
    | PrefillChunk(id: nat, take: nat)
    | DecodeToken(id: nat, token: int32)
    | RecordBlock(id: nat)
    | Preempt(id: nat, keep: nat)
    | Retire(id: nat)

  // The row is claimed first (no blocks, so nothing is evicted), then the cache
  // is asked, then what it proposes is mounted.
  ghost predicate AdmitStep(w: World, id: nat, prompt: seq<int32>, blocks: seq<nat>, hashes: seq<u64>, w1: World) {
    && StoreOk(w.store) && id !in w.seqs && prompt != []
    && |prompt| <= Start(w.store.cache.blockSize, w.store.pool.width)
    && var (claimed, row) := AllocateBlocks(w.store, 0);
       && 0 <= row < |w.store.pool.busy|
       && claimed == Enter(w, id, prompt, row).store
       && claimed.cache.blockSize > 0 && IsMatch(claimed, prompt, blocks, hashes)
       && row < |claimed.pool.tables| && Below(blocks, |claimed.pool.refs|)
       && w1 == Mount(Enter(w, id, prompt, row), id, blocks, hashes)
  }

  ghost predicate StepOf(w: World, a: Action, w1: World) {
    match a
    case Admit(id, prompt, blocks, hashes) => AdmitStep(w, id, prompt, blocks, hashes, w1)
    case GrowRow(id) =>
      id in w.seqs && StoreOk(w.store) && (w.growing == None || w.growing == Some(id)) && w1 == Grow(w, id)
    case PrefillChunk(id, take) =>
      id in w.seqs && w.store.cache.blockSize > 0 && MayPrefill(w, id, take) && w1 == Prefill(w, id, take)
    case DecodeToken(id, token) =>
      id in w.seqs && w.store.cache.blockSize > 0 && MayDecode(w, id) && w1 == Decode(w, id, token)
    case RecordBlock(id) =>
      id in w.seqs && StoreOk(w.store) && MayRecord(w, id)
      && RowKnown(w.store, w.seqs[id].prompt, Row(w.store, w.seqs[id])) && w1 == RecordNext(w, id)
    case Preempt(id, keep) =>
      id in w.seqs && Shape(w.store.pool) && w.seqs[id].row < |w.store.pool.tables| && w.growing != Some(id)
      && 1 <= keep < |Row(w.store, w.seqs[id])| && w1 == Truncate(w, id, keep)
    case Retire(id) =>
      id in w.seqs && Shape(w.store.pool) && w.seqs[id].row < |w.store.pool.tables| && w1 == Finish(w, id)
  }

  // Claiming a row without blocks is what entering a sequence does to the store,
  // and no check made at admission can fail: no retry is ever needed.
  lemma AdmissionSucceeds(w: World, id: nat, prompt: seq<int32>, blocks: seq<nat>, hashes: seq<u64>)
    requires WorldOk(w) && id !in w.seqs && prompt != []
    requires |prompt| <= Start(w.store.cache.blockSize, w.store.pool.width)
    requires var (claimed, row) := AllocateBlocks(w.store, 0);
             row >= 0 && claimed.cache.blockSize > 0 && IsMatch(claimed, prompt, blocks, hashes)
    ensures var (claimed, row) := AllocateBlocks(w.store, 0);
            && 0 <= row < |w.store.pool.busy|
            && claimed == Enter(w, id, prompt, row).store
            && row < |claimed.pool.tables| && Below(blocks, |claimed.pool.refs|)
            && Shape(claimed.pool) && (blocks != [] ==> Mountable(claimed.pool, row, blocks))
  {
    hide SeqOk, Tight, Start, IsMatch, Inv, CacheOk, Coupled, Mountable;
    var (claimed, row) := AllocateBlocks(w.store, 0);
    ClaimRow(w, id, prompt);
    AllocateKeeps(w.store, 0);
    IdleRowIsEmpty(w.store.pool, row);
    StorePool(claimed);
    if blocks != [] {
      MatchMountable(claimed, prompt, row, blocks, hashes);
    }
  }

  lemma ClaimRow(w: World, id: nat, prompt: seq<int32>)
    requires StoreOk(w.store)
    ensures var (claimed, row) := AllocateBlocks(w.store, 0);
            row >= 0 ==> row < |w.store.pool.busy| && !w.store.pool.busy[row] && claimed == Enter(w, id, prompt, row).store
  {
    hide StoreOk;
    ReclaimKeeps(w.store, 0);
  }

  lemma AdmitKeeps(w: World, id: nat, prompt: seq<int32>, blocks: seq<nat>, hashes: seq<u64>, w1: World)
    requires WorldOk(w) && AdmitStep(w, id, prompt, blocks, hashes, w1)
    ensures w.store.cache.blockSize > 0
    ensures WorldOk(w1) <==> !Repeats(prompt, w.store.cache.blockSize, |blocks|)
    ensures NoFork(w1.seen, w.store.cache.blockSize) ==> WorldOk(w1) && (ContentOk(w) ==> ContentOk(w1))
  {
    hide WorldOk, ContentOk, IsMatch, NoFork, StoreOk, Start, AllocateBlocks, Repeats, CacheableBlocks;
    var row, size := AllocateBlocks(w.store, 0).1, w.store.cache.blockSize;
    ClaimRow(w, id, prompt);
    EnterKeeps(w, id, prompt, row);
    var w2 := Enter(w, id, prompt, row);
    MountKeeps(w2, id, blocks, hashes);
    if NoFork(w1.seen, size) && Repeats(prompt, size, |blocks|) {
      MatchSteady(w2.store, prompt, blocks, hashes);
      MatchCacheable(w2.store, prompt, blocks, hashes);
      RepeatForks(prompt, size, |blocks|);
      var m :| Fork(prompt, 0, prompt, m, size);
      NotForked(w1.seen, size, prompt, 0, prompt, m);
      assert false;
    }
  }

  lemma MatchCacheable(s: Store, prompt: seq<int32>, blocks: seq<nat>, hashes: seq<u64>)
    requires s.cache.blockSize > 0 && IsMatch(s, prompt, blocks, hashes)
    ensures |blocks| <= CacheableBlocks(|prompt|, s.cache.blockSize)
  {
    hide Start, Hit, MatchedAt;
  }

  // The one step that can break the accounting: an admission that mounts a
  // block twice.
  ghost predicate Clean(w: World, a: Action) {
    a.Admit? ==> !Repeats(a.prompt, w.store.cache.blockSize, |a.blocks|)
  }

  // One step, whatever it is.
  lemma StepKeeps(w: World, a: Action, w1: World)
    requires WorldOk(w) && StepOf(w, a, w1)
    ensures w.store.cache.blockSize > 0
    ensures WorldOk(w1) <==> Clean(w, a)
    ensures w1.store.cache.blockSize == w.store.cache.blockSize
    ensures NoFork(w1.seen, w.store.cache.blockSize) ==> WorldOk(w1) && (ContentOk(w) ==> ContentOk(w1))
  {
    hide WorldOk, ContentOk, NoFork, StoreOk, MayPrefill, MayDecode, MayRecord, AdmitStep, Start, RowKnown, Repeats;
    OfSize(w);
    match a {
      case Admit(id, prompt, blocks, hashes) =>
        AdmitKeeps(w, id, prompt, blocks, hashes, w1);
        AdmitSeen(w, id, prompt, blocks, hashes, w1);
      case GrowRow(id) =>
        GrowKeeps(w, id);
        GrowSize(w, id);
      case PrefillChunk(id, take) =>
        PrefillKeeps(w, id, take);
      case DecodeToken(id, token) =>
        DecodeKeeps(w, id, token);
      case RecordBlock(id) =>
        RecordNextKeeps(w, id);
        RecordSize(w, id);
      case Preempt(id, keep) =>
        TruncateKeeps(w, id, keep);
      case Retire(id) =>
        FinishKeeps(w, id);
    }
  }

  lemma OfSize(w: World)
    requires WorldOk(w)
    ensures w.store.cache.blockSize > 0
  {
    hide SeqOk, Tight, PoolOk, Coupled, OwnRows, SharedPinned;
  }

  lemma AdmitSeen(w: World, id: nat, prompt: seq<int32>, blocks: seq<nat>, hashes: seq<u64>, w1: World)
    requires AdmitStep(w, id, prompt, blocks, hashes, w1)
    ensures w1.seen == w.seen + {prompt} && w1.store.cache.blockSize == w.store.cache.blockSize
  {
    hide StoreOk, IsMatch, Start, AllocateBlocks;
  }

  lemma GrowSize(w: World, id: nat)
    requires WorldOk(w) && id in w.seqs
    ensures Grow(w, id).store.cache.blockSize == w.store.cache.blockSize && Grow(w, id).seen == w.seen
  {
    hide WorldOk, StoreOk;
    OfWorld(w, id);
    ReclaimKeeps(w.store, 1);
  }

  lemma RecordSize(w: World, id: nat)
    requires WorldOk(w) && id in w.seqs && MayRecord(w, id)
    requires StoreOk(w.store) && RowKnown(w.store, w.seqs[id].prompt, Row(w.store, w.seqs[id]))
    ensures RecordNext(w, id).store.cache.blockSize == w.store.cache.blockSize && RecordNext(w, id).seen == w.seen
  {
    hide WorldOk, StoreOk, RowKnown, Start, Recording, Record, CacheableBlocks;
    var q := w.seqs[id];
    RecordKeeps(w.store, q.prompt, Row(w.store, q), q.recorded);
    RecordingFrame(w.store, RecordNext(w, id).store, q.prompt, Row(w.store, q), q.recorded);
  }

  ghost predicate IsRun(ws: seq<World>, acts: seq<Action>) {
    |ws| == |acts| + 1 && forall k :: 0 <= k < |acts| ==> StepOf(ws[k], acts[k], ws[k + 1])
  }

  // In every run that starts in order, the accounting is in order up to any
  // moment exactly when no admission before it mounted a block twice.
  lemma {:induction false} AccountsInOrder(ws: seq<World>, acts: seq<Action>, k: nat)
    requires IsRun(ws, acts) && k <= |acts| && WorldOk(ws[0])
    ensures (forall j :: 0 <= j <= k ==> WorldOk(ws[j])) <==> (forall j :: 0 <= j < k ==> Clean(ws[j], acts[j]))
    decreases k
  {
    hide WorldOk, StepOf, Clean;
    if k > 0 {
      AccountsInOrder(ws, acts, k - 1);
      assert StepOf(ws[k - 1], acts[k - 1], ws[k]);
      if WorldOk(ws[k - 1]) {
        StepKeeps(ws[k - 1], acts[k - 1], ws[k]);
      }
    }
  }

  // Where no two admitted prompts fork, accounting and contents are in order at
  // every moment of every run: every committed cell of every sequence holds
  // what its own tokens give.
  lemma {:induction false} EveryRun(ws: seq<World>, acts: seq<Action>, k: nat)
    requires IsRun(ws, acts) && k <= |acts| && WorldOk(ws[0])
    ensures ws[0].store.cache.blockSize > 0
    ensures NoFork(ws[k].seen, ws[0].store.cache.blockSize) ==>
              && WorldOk(ws[k]) && ws[k].store.cache.blockSize == ws[0].store.cache.blockSize
              && (ContentOk(ws[0]) ==> ContentOk(ws[k]))
    decreases k
  {
    hide WorldOk, ContentOk, NoFork, StepOf;
    OfSize(ws[0]);
    if k > 0 && NoFork(ws[k].seen, ws[0].store.cache.blockSize) {
      assert StepOf(ws[k - 1], acts[k - 1], ws[k]);
      SeenGrows(ws[k - 1], acts[k - 1], ws[k]);
      FewerForks(ws[k - 1].seen, ws[k].seen, ws[0].store.cache.blockSize);
      EveryRun(ws, acts, k - 1);
      StepKeeps(ws[k - 1], acts[k - 1], ws[k]);
    }
  }

  lemma SeenGrows(w: World, a: Action, w1: World)
    requires StepOf(w, a, w1)
    ensures w.seen <= w1.seen && (a.Admit? ==> a.prompt in w1.seen)
  {
    hide StoreOk, IsMatch, Start, AllocateBlocks, MayPrefill, MayDecode, MayRecord, RowKnown, Record, FreeFrom, KvAfter;
  }

  lemma FewerForks(seen: set<seq<int32>>, seen1: set<seq<int32>>, size: nat)
    requires seen <= seen1 && size > 0
    ensures NoFork(seen1, size) ==> NoFork(seen, size)
  {
    hide Fork;
  }

  // A block taken to grow a row was referenced by no row and is in no entry:
  // in particular it is none of the blocks matched for this sequence.
  lemma GrowTakesFresh(w: World, id: nat)
    requires WorldOk(w) && id in w.seqs && (w.growing == None || w.growing == Some(id))
    requires AppendBlocks(w.store, w.seqs[id].row, 1).1 >= 0
    ensures var row, row1 := Row(w.store, w.seqs[id]), Row(Grow(w, id).store, w.seqs[id]);
            && |row1| == |row| + 1 && row < row1 && row1[|row|] !in row
            && row1[|row|] < |w.store.pool.refs| && w.store.pool.refs[row1[|row|]] == 0
            && PrivateBlock(Grow(w, id), id, row1[|row|])
  {
    hide WorldOk, StoreOk, Evicting, PrivateBlock, Inv, ReclaimFor;
    var s, q := w.store, w.seqs[id];
    OfWorld(w, id);
    AppendKeeps(s, q.row, 1);
    GrowKeeps(w, id);
    var u, w1 := ReclaimFor(s, 1), Grow(w, id);
    EvictingPool(s, u);
    StorePool(u);
    LastFree(u.pool);
    PoppedOne(u.pool.free);
    var b := u.pool.free[|u.pool.free| - 1];
    if b in Row(u, q) {
      HeldIsReferenced(u.pool, q.row, b);
      assert false;
    }
    assert Row(w1.store, w1.seqs[id])[|Row(s, q)|] == b;
    assert !Pinned(w1.store, b);
    UnpinnedIsPrivate(w1, id, |Row(s, q)|);
  }

  lemma PoppedOne(free: seq<nat>)
    requires free != []
    ensures Popped(free, 1) == [free[|free| - 1]]
  {
    assert Popped(free[..|free| - 1], 0) == [];
  }

  // ---------------------------------------------------------------- first and last state

  // All blocks free, block 0 the first to be handed out; no rows, no entries.
  ghost function Initial(blocks: nat, rows: nat, width: nat, size: nat, maxEntries: nat): World {
    World(Store(Fresh(blocks, rows, width), Cache(map[], [], size, maxEntries, NoStats)), map[], map[], {}, None)
  }

  lemma InitialOk(blocks: nat, rows: nat, width: nat, size: nat, maxEntries: nat)
    requires size > 0 && maxEntries > 0
    ensures WorldOk(Initial(blocks, rows, width, size, maxEntries))
    ensures ContentOk(Initial(blocks, rows, width, size, maxEntries))
  {
    hide Occurrences;
    var w := Initial(blocks, rows, width, size, maxEntries);
    var p := w.store.pool;
    forall b | 0 <= b < blocks ensures Accounted(p, b) {
      OccurrencesNone(p.tables, b);
      assert p.free[blocks - 1 - b] == b;
    }
  }

  // When no sequence is left, every block is free or kept for the cache alone.
  lemma NothingLeaks(w: World)
    requires WorldOk(w) && w.seqs == map[]
    ensures |w.store.pool.cached| == |w.store.pool.refs|
    ensures |w.store.pool.free| + |Parked(w.store.pool)| == |w.store.pool.refs|
  {
    hide Occurrences, CacheOk, Coupled, Referenced, Parked;
    var p := w.store.pool;
    Conservation(p);
    forall r | 0 <= r < |p.tables| ensures p.tables[r] == [] {
      assert !p.busy[r];
    }
    forall b | 0 <= b < |p.refs| ensures p.refs[b] == 0 {
      assert Accounted(p, b);
      OccurrencesNone(p.tables, b);
    }
    assert Referenced(p) == {} by {
      NoneReferenced(p);
    }
  }

  lemma NoneReferenced(p: Pool)
    requires forall b :: 0 <= b < |p.refs| ==> p.refs[b] == 0
    ensures Referenced(p) == {}
  {}
}
