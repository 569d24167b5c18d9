/**
 Sequences sharing one block pool and one prefix cache: admission, lazy growth,
 prefill, decode, truncation, recording and retirement as steps of a state
 machine. Every cell of a block carries, as a ghost, the tokens its contents
 were computed from.
 */
module Serving {
  import opened Wrappers
  import opened Bytes
  import opened BlockPool
  import opened KvStore
  import opened PrefixMatching
  import opened PrefixRecording
  import Fnv

  // (block, offset) -> all tokens up to and including the one at that cell
  type Kv = map<(nat, nat), seq<int32>>

  datatype Sequence = Sequence(
    prompt: seq<int32>,
    row: nat,
    progress: nat,
    complete: bool,
    generated: seq<int32>,
    recorded: nat)

  // `seen` collects the prompts admitted so far; `growing` is the sequence that
  // has taken blocks for a step it has not made yet.
  datatype World = World(
    store: Store,
    seqs: map<nat, Sequence>,
    kv: Kv,
    seen: set<seq<int32>>,
    growing: Option<nat>)

  function Tokens(q: Sequence): seq<int32> {
    q.prompt + q.generated
  }

  // How many positions have valid KV.
  function Committed(q: Sequence): nat {
    if !q.complete then q.progress
    else if q.generated == [] then |q.prompt| else |q.prompt| + |q.generated| - 1
  }

  // ---------------------------------------------------------------- what every run keeps: blocks

  function Row(s: Store, q: Sequence): seq<nat> {
    if q.row < |s.pool.tables| then s.pool.tables[q.row] else []
  }

  predicate Pinned(s: Store, b: nat) {
    b < |s.pool.cached| && s.pool.cached[b]
  }

  // Pinned blocks lie in front of everything the sequence still has to write:
  // of its prefill progress and of the last prompt token.
  ghost predicate Shielded(s: Store, q: Sequence) {
    forall i :: 0 <= i < |Row(s, q)| && Pinned(s, Row(s, q)[i]) ==>
      Start(s.cache.blockSize, i + 1) <= q.progress && Start(s.cache.blockSize, i + 1) < |q.prompt|
  }

  ghost predicate SeqOk(s: Store, q: Sequence) {
    && q.row < |s.pool.tables| == |s.pool.busy| && s.pool.busy[q.row]
    && 0 < |q.prompt| && q.progress <= |q.prompt|
    && (q.complete <==> q.progress == |q.prompt|)
    && (!q.complete ==> q.generated == [])
    && RowKnown(s, q.prompt, Row(s, q))
    && Shielded(s, q)
    && Committed(q) <= Start(s.cache.blockSize, |Row(s, q)|)
    && Start(s.cache.blockSize, q.recorded) <= q.progress
  }

  // A sequence in prefill holds no block beyond its progress between steps.
  ghost predicate Tight(s: Store, q: Sequence) {
    !q.complete && Row(s, q) != [] ==> Start(s.cache.blockSize, |Row(s, q)| - 1) < q.progress
  }

  ghost predicate SharedPinned(p: Pool) {
    forall b :: 0 <= b < |p.refs| && p.refs[b] > 1 ==> b < |p.cached| && p.cached[b]
  }

  ghost predicate OwnRows(s: Store, seqs: map<nat, Sequence>) {
    && (forall i, j :: i in seqs && j in seqs && i != j ==> seqs[i].row != seqs[j].row)
    && (forall r :: 0 <= r < |s.pool.busy| && s.pool.busy[r] ==> exists i :: i in seqs && seqs[i].row == r)
  }

  ghost predicate WorldOk(w: World) {
    && StoreOk(w.store)
    && |w.store.cache.entries| <= 2 * w.store.cache.maxEntries
    && SharedPinned(w.store.pool)
    && OwnRows(w.store, w.seqs)
    && (forall i :: i in w.seqs ==> SeqOk(w.store, w.seqs[i]) && w.seqs[i].prompt in w.seen)
    && (forall i :: i in w.seqs && w.growing != Some(i) ==> Tight(w.store, w.seqs[i]))
  }

  // ---------------------------------------------------------------- what every run keeps: contents

  predicate Holds(kv: Kv, b: nat, o: nat, context: seq<int32>) {
    (b, o) in kv && kv[(b, o)] == context
  }

  predicate Inside(size: nat, n: nat, i: nat, o: nat) {
    o < size && Start(size, i) + o < n
  }

  // Cell o of a block was computed from the tokens up to offset o of block i.
  ghost predicate BlockCell(kv: Kv, size: nat, b: nat, tokens: seq<int32>, i: nat, o: nat) {
    Start(size, i) + o < |tokens| && Holds(kv, b, o, tokens[..Start(size, i) + o + 1])
  }

  ghost predicate BlockTrue(kv: Kv, size: nat, b: nat, tokens: seq<int32>, i: nat) {
    forall o :: 0 <= o < size ==> BlockCell(kv, size, b, tokens, i, o)
  }

  // Cell (i, o) of a row was computed from the tokens up to its position.
  ghost predicate CellTrue(kv: Kv, size: nat, row: seq<nat>, tokens: seq<int32>, i: nat, o: nat)
    requires i < |row|
  {
    BlockCell(kv, size, row[i], tokens, i, o)
  }

  ghost predicate CellsTrue(kv: Kv, size: nat, row: seq<nat>, tokens: seq<int32>, n: nat) {
    forall i, o :: 0 <= i < |row| && Inside(size, n, i, o) ==> CellTrue(kv, size, row, tokens, i, o)
  }

  ghost predicate SeqTrue(w: World, q: Sequence) {
    CellsTrue(w.kv, w.store.cache.blockSize, Row(w.store, q), Tokens(q), Committed(q))
  }

  // The entry was made for block i of prompt p, and its block still holds it.
  ghost predicate EntryFrom(kv: Kv, size: nat, h: u64, e: Entry, p: seq<int32>, i: nat) {
    && size > 0 && i < CacheableBlocks(|p|, size) && Fits(p, size, i)
    && h == Chain(p, size, i + 1) && e.prevHash == Chain(p, size, i) && e.tokens == BlockOf(p, size, i)
    && BlockTrue(kv, size, e.block, p, i)
  }

  ghost predicate EntryTrue(w: World, h: u64)
    requires h in w.store.cache.entries
  {
    exists p, i :: p in w.seen && EntryFrom(w.kv, w.store.cache.blockSize, h, w.store.cache.entries[h], p, i)
  }

  ghost predicate ContentOk(w: World) {
    && (forall h :: h in w.store.cache.entries ==> EntryTrue(w, h))
    && (forall i :: i in w.seqs ==> SeqTrue(w, w.seqs[i]))
  }

  // ---------------------------------------------------------------- frames

  // A sequence whose row is left alone stays as it was.
  lemma SeqFrame(s: Store, t: Store, q: Sequence)
    requires SeqOk(s, q) && q.row < |t.pool.tables| == |t.pool.busy| && t.pool.busy[q.row]
    requires t.pool.tables[q.row] == s.pool.tables[q.row] && t.cache.blockSize == s.cache.blockSize
    requires RowKnown(t, q.prompt, Row(s, q))
    requires forall b :: b in Row(s, q) && Pinned(t, b) ==> Pinned(s, b)
    ensures SeqOk(t, q) && Row(t, q) == Row(s, q)
    ensures Tight(s, q) ==> Tight(t, q)
  {
    hide RowKnown, Start;
    forall i | 0 <= i < |Row(t, q)| && Pinned(t, Row(t, q)[i])
      ensures Start(s.cache.blockSize, i + 1) <= q.progress && Start(s.cache.blockSize, i + 1) < |q.prompt|
    {
      assert Row(s, q)[i] in Row(s, q);
    }
  }

  // In a consistent pool a row's blocks are known when its pins are.
  lemma KnownRow(t: Store, r: nat, prompt: seq<int32>)
    requires PoolOk(t.pool) && r < |t.pool.tables|
    requires forall i :: 0 <= i < |t.pool.tables[r]| ==> Known(t, prompt, t.pool.tables[r], i)
    ensures RowKnown(t, prompt, t.pool.tables[r])
  {
    hide Known, Accounted;
    RowFacts(t.pool, r);
    assert NoDup(t.pool.tables[r]);
  }

  lemma SamePinsKnown(s: Store, t: Store, prompt: seq<int32>, row: seq<nat>)
    requires RowKnown(s, prompt, row) && t.pool.cached == s.pool.cached
    requires t.cache.entries == s.cache.entries && t.cache.blockSize == s.cache.blockSize
    ensures forall i :: 0 <= i < |row| ==> Known(t, prompt, row, i)
  {
    hide Start, Chain;
    forall i | 0 <= i < |row| ensures Known(t, prompt, row, i) {
      assert Known(s, prompt, row, i);
    }
  }

  // Pins, entries and this row are the same: so is the sequence.
  lemma SeqSamePins(s: Store, t: Store, q: Sequence)
    requires SeqOk(s, q) && PoolOk(t.pool) && q.row < |t.pool.tables| == |t.pool.busy| && t.pool.busy[q.row]
    requires t.pool.tables[q.row] == s.pool.tables[q.row] && t.pool.cached == s.pool.cached
    requires t.cache.entries == s.cache.entries && t.cache.blockSize == s.cache.blockSize
    ensures SeqOk(t, q) && Row(t, q) == Row(s, q)
    ensures Tight(s, q) ==> Tight(t, q)
  {
    hide PoolOk, RowKnown, Known, Start, Shielded, Tight;
    SamePinsKnown(s, t, q.prompt, Row(s, q));
    KnownRow(t, q.row, q.prompt);
    SeqFrame(s, t, q);
  }

  // ---------------------------------------------------------------- writing

  // KV of positions [lo, hi) of a sequence.
  function Written(kv: Kv, size: nat, row: seq<nat>, tokens: seq<int32>, lo: nat, hi: nat): Kv
    requires size > 0 && hi <= |tokens| && hi <= Start(size, |row|)
    decreases hi
  {
    if hi <= lo then kv
    else
      InRow(size, |row|, hi - 1);
      Written(kv, size, row, tokens, lo, hi - 1)[(row[(hi - 1) / size], (hi - 1) % size) := tokens[..hi]]
  }

  lemma InRow(size: nat, n: nat, p: nat)
    requires size > 0 && p < Start(size, n)
    ensures p / size < n
  {
    PositionOf(size, p);
    if p / size >= n {
      StartUpTo(size, n, p / size);
    }
  }

  // A cell of the row holds its own context after it was written, and what it
  // held before otherwise.
  lemma {:induction false} WrittenInRow(kv: Kv, size: nat, row: seq<nat>, tokens: seq<int32>, lo: nat, hi: nat, i: nat, o: nat)
    requires size > 0 && hi <= |tokens| && hi <= Start(size, |row|) && NoDup(row)
    requires i < |row| && o < size
    ensures lo <= Start(size, i) + o < hi ==>
              Holds(Written(kv, size, row, tokens, lo, hi), row[i], o, tokens[..Start(size, i) + o + 1])
    ensures !(lo <= Start(size, i) + o < hi) ==>
              forall c :: Holds(kv, row[i], o, c) ==> Holds(Written(kv, size, row, tokens, lo, hi), row[i], o, c)
    decreases hi
  {
    if hi > lo {
      var p := hi - 1;
      WrittenInRow(kv, size, row, tokens, lo, p, i, o);
      InRow(size, |row|, p);
      PositionOf(size, p);
      PositionAt(size, i, o);
      assert row[p / size] == row[i] ==> p / size == i;
    }
  }

  // Cells of blocks that are not written stay.
  lemma {:induction false} WrittenElsewhere(kv: Kv, size: nat, row: seq<nat>, tokens: seq<int32>, lo: nat, hi: nat,
                                            b: nat, o: nat, c: seq<int32>)
    requires size > 0 && hi <= |tokens| && hi <= Start(size, |row|) && Holds(kv, b, o, c)
    requires forall i :: 0 <= i < |row| && lo < Start(size, i) + size ==> row[i] != b
    ensures Holds(Written(kv, size, row, tokens, lo, hi), b, o, c)
    decreases hi
  {
    if hi > lo {
      var p := hi - 1;
      WrittenElsewhere(kv, size, row, tokens, lo, p, b, o, c);
      InRow(size, |row|, p);
      PositionOf(size, p);
    }
  }

  // The block of a position the sequence has yet to write - or to write again,
  // for the last prompt token - belongs to it alone: no other row holds it and
  // no cache entry names it.
  lemma WritesArePrivate(w: World, id: nat, i: nat, o: nat)
    requires WorldOk(w) && id in w.seqs
    requires i < |Row(w.store, w.seqs[id])| && o < w.store.cache.blockSize
    requires var p := Start(w.store.cache.blockSize, i) + o;
             p >= w.seqs[id].progress || p + 1 >= |w.seqs[id].prompt|
    ensures PrivateBlock(w, id, Row(w.store, w.seqs[id])[i])
  {
    hide StoreOk, RowKnown, OwnRows, SharedPinned, Tight;
    StartNext(w.store.cache.blockSize, i);
    hide Start;
    assert SeqOk(w.store, w.seqs[id]);
    assert !Pinned(w.store, Row(w.store, w.seqs[id])[i]);
    hide SeqOk;
    UnpinnedIsPrivate(w, id, i);
  }

  ghost predicate PrivateBlock(w: World, id: nat, b: nat) {
    && b < |w.store.pool.refs| && w.store.pool.refs[b] == 1 && !Pinned(w.store, b)
    && (forall j :: j in w.seqs && j != id ==> b !in Row(w.store, w.seqs[j]))
    && (forall h :: h in w.store.cache.entries ==> w.store.cache.entries[h].block != b)
  }

  lemma UnpinnedIsPrivate(w: World, id: nat, i: nat)
    requires WorldOk(w) && id in w.seqs && i < |Row(w.store, w.seqs[id])|
    requires !Pinned(w.store, Row(w.store, w.seqs[id])[i])
    ensures PrivateBlock(w, id, Row(w.store, w.seqs[id])[i])
  {
    hide Start, Shielded, CacheOk, Accounted, RowKnown, Tight;
    var q := w.seqs[id];
    assert SeqOk(w.store, q);
    var b := Row(w.store, q)[i];
    StorePool(w.store);
    HeldIsReferenced(w.store.pool, q.row, b);
    forall j | j in w.seqs && j != id ensures b !in Row(w.store, w.seqs[j]) {
      assert SeqOk(w.store, w.seqs[j]);
      assert w.seqs[j].row != q.row;
    }
  }
}
