/**
 Which blocks of a prompt the cache can share, and which it records: chained
 block hashes, lookup, and insertion of committed blocks.
 */
module PrefixMatching {
  import opened Bytes
  import opened BlockPool
  import opened KvStore
  import Fnv

  // ---------------------------------------------------------------- positions

  // The first position of block i.
  function Start(size: nat, i: nat): nat {
    if i == 0 then 0 else Start(size, i - 1) + size
  }

  lemma {:induction false} StartIs(size: nat, i: nat)
    ensures Start(size, i) == i * size
  {
    if i > 0 {
      StartIs(size, i - 1);
    }
  }

  lemma {:induction false} StartUpTo(size: nat, i: nat, j: nat)
    requires i <= j
    ensures Start(size, i) <= Start(size, j)
    ensures i < j ==> Start(size, i) + size <= Start(size, j)
  {
    if i < j {
      StartUpTo(size, i, j - 1);
    }
  }

  lemma StartNext(size: nat, i: nat)
    ensures Start(size, i + 1) == Start(size, i) + size
  {}

  // The block and the offset of a position.
  lemma PositionOf(size: nat, p: nat)
    requires size > 0
    ensures Start(size, p / size) + p % size == p && p % size < size
  {
    StartIs(size, p / size);
  }

  lemma PositionAt(size: nat, i: nat, o: nat)
    requires o < size
    ensures (Start(size, i) + o) / size == i && (Start(size, i) + o) % size == o
  {
    StartIs(size, i);
    var p := Start(size, i) + o;
    PositionOf(size, p);
    if p / size < i {
      StartUpTo(size, p / size, i);
    } else if p / size > i {
      StartUpTo(size, i, p / size);
    }
  }

  // ---------------------------------------------------------------- chained hashes

  // Block i of a token sequence.
  function BlockOf(tokens: seq<int32>, size: nat, i: nat): seq<int32>
    requires Start(size, i + 1) <= |tokens|
  {
    tokens[Start(size, i)..Start(size, i + 1)]
  }

  // The hash of the first k blocks, 0 for none.
  function Chain(tokens: seq<int32>, size: nat, k: nat): u64
    requires Start(size, k) <= |tokens|
  {
    if k == 0 then 0 else Fnv.BlockHash(Chain(tokens, size, k - 1), BlockOf(tokens, size, k - 1))
  }

  lemma {:induction false} ChainOfPrefix(tokens: seq<int32>, more: seq<int32>, size: nat, k: nat)
    requires Start(size, k) <= |tokens| && tokens <= more
    ensures Chain(more, size, k) == Chain(tokens, size, k)
    decreases k
  {
    hide Fnv.BlockHash;
    if k > 0 {
      ChainOfPrefix(tokens, more, size, k - 1);
      assert BlockOf(more, size, k - 1) == BlockOf(tokens, size, k - 1);
    }
  }

  // ---------------------------------------------------------------- lookup

  // The whole blocks before the one that holds the last prompt token.
  function CacheableBlocks(n: nat, size: nat): (k: nat)
    requires size > 0
    ensures n == 0 ==> k == 0
    ensures n > 0 ==> Start(size, k) < n <= Start(size, k + 1)
  {
    if n == 0 then 0
    else
      PositionOf(size, n - 1);
      (n - 1) / size
  }

  // Block i of the prompt has an entry under its chained hash that was made for
  // the same tokens behind the same hash, and whose block is still held.
  predicate Hit(s: Store, prompt: seq<int32>, i: nat)
    requires Start(s.cache.blockSize, i + 1) <= |prompt|
  {
    var h := Chain(prompt, s.cache.blockSize, i + 1);
    && h in s.cache.entries
    && s.cache.entries[h].prevHash == Chain(prompt, s.cache.blockSize, i)
    && s.cache.entries[h].tokens == BlockOf(prompt, s.cache.blockSize, i)
    && Shareable(s.pool, s.cache.entries[h].block)
  }

  predicate Shareable(p: Pool, b: nat) {
    b < |p.refs| && b < |p.cached| && (p.refs[b] > 0 || p.cached[b])
  }

  // The block and the hash of entry i of a match.
  ghost predicate MatchedAt(s: Store, prompt: seq<int32>, blocks: seq<nat>, hashes: seq<u64>, i: nat)
    requires i < |blocks| == |hashes|
  {
    && Start(s.cache.blockSize, i + 1) <= |prompt| && Hit(s, prompt, i)
    && hashes[i] == Chain(prompt, s.cache.blockSize, i + 1)
    && hashes[i] in s.cache.entries && blocks[i] == s.cache.entries[hashes[i]].block
  }

  // The longest run of hits from the start of the prompt.
  ghost predicate IsMatch(s: Store, prompt: seq<int32>, blocks: seq<nat>, hashes: seq<u64>)
    requires s.cache.blockSize > 0
  {
    var size := s.cache.blockSize;
    && |blocks| == |hashes| <= CacheableBlocks(|prompt|, size)
    && (forall i :: 0 <= i < |blocks| ==> MatchedAt(s, prompt, blocks, hashes, i))
    && (|blocks| < CacheableBlocks(|prompt|, size) ==>
          Start(size, |blocks| + 1) <= |prompt| && !Hit(s, prompt, |blocks|))
  }

  // Block i is whole and a hit.
  ghost predicate HitAt(s: Store, prompt: seq<int32>, i: nat) {
    Start(s.cache.blockSize, i + 1) <= |prompt| && Hit(s, prompt, i)
  }

  // A match has n blocks or more exactly when the first n blocks are shareable
  // and each of them is a hit.
  lemma MatchReaches(s: Store, prompt: seq<int32>, blocks: seq<nat>, hashes: seq<u64>, n: nat)
    requires s.cache.blockSize > 0 && IsMatch(s, prompt, blocks, hashes)
    ensures n <= |blocks| <==>
              n <= CacheableBlocks(|prompt|, s.cache.blockSize) && forall i :: 0 <= i < n ==> HitAt(s, prompt, i)
  {
    hide Hit, Start, CacheableBlocks;
    if n <= |blocks| {
      forall i | 0 <= i < n ensures HitAt(s, prompt, i) {
        assert MatchedAt(s, prompt, blocks, hashes, i);
      }
    } else if n <= CacheableBlocks(|prompt|, s.cache.blockSize) {
      assert !HitAt(s, prompt, |blocks|);
    }
  }

  // The hash of the first m blocks is 0, the hash of the empty prefix, and the
  // first block comes again behind them, within the first n blocks.
  ghost predicate RepeatsAt(prompt: seq<int32>, size: nat, n: nat, m: nat) {
    && 1 <= m < n && Start(size, 1) <= |prompt| && Start(size, m) <= |prompt| && Start(size, m + 1) <= |prompt|
    && Chain(prompt, size, m) == 0 && BlockOf(prompt, size, m) == BlockOf(prompt, size, 0)
  }

  ghost predicate Repeats(prompt: seq<int32>, size: nat, n: nat) {
    exists m :: RepeatsAt(prompt, size, n, m)
  }

  // A match names one block twice exactly in that case.
  lemma MatchDistinct(s: Store, prompt: seq<int32>, blocks: seq<nat>, hashes: seq<u64>)
    requires StoreOk(s) && IsMatch(s, prompt, blocks, hashes)
    ensures NoDup(blocks) <==> !Repeats(prompt, s.cache.blockSize, |blocks|)
  {
    hide PoolOk, Hit, Chain, Start, IsMatch, RepeatsAt;
    var size := s.cache.blockSize;
    forall i, j | 0 <= i < j < |blocks| && blocks[i] == blocks[j] ensures Repeats(prompt, size, |blocks|) {
      SameBlock(s, prompt, blocks, hashes, i, j);
      SameHashes(s, prompt, blocks, hashes, i, j);
      assert RepeatsAt(prompt, size, |blocks|, j - i);
    }
    forall m | RepeatsAt(prompt, size, |blocks|, m) ensures !NoDup(blocks) {
      RepeatNamesTwice(s, prompt, blocks, hashes, m);
    }
  }

  lemma SameBlock(s: Store, prompt: seq<int32>, blocks: seq<nat>, hashes: seq<u64>, i: nat, j: nat)
    requires StoreOk(s) && IsMatch(s, prompt, blocks, hashes) && i < j < |blocks| && blocks[i] == blocks[j]
    ensures hashes[i] == hashes[j]
  {
    hide PoolOk, Hit, Chain, Start;
    assert MatchedAt(s, prompt, blocks, hashes, i) && MatchedAt(s, prompt, blocks, hashes, j);
  }

  lemma RepeatNamesTwice(s: Store, prompt: seq<int32>, blocks: seq<nat>, hashes: seq<u64>, m: nat)
    requires s.cache.blockSize > 0 && IsMatch(s, prompt, blocks, hashes)
    requires RepeatsAt(prompt, s.cache.blockSize, |blocks|, m)
    ensures blocks[0] == blocks[m] && !NoDup(blocks)
  {
    hide Fnv.BlockHash, CacheableBlocks, BlockOf, Hit;
    var size := s.cache.blockSize;
    assert MatchedAt(s, prompt, blocks, hashes, 0) && MatchedAt(s, prompt, blocks, hashes, m);
    assert Chain(prompt, size, m + 1) == Fnv.BlockHash(Chain(prompt, size, m), BlockOf(prompt, size, m));
    assert Chain(prompt, size, 1) == Fnv.BlockHash(Chain(prompt, size, 0), BlockOf(prompt, size, 0));
  }

  // Equal hashes come from equal hashes before them, down to the start.
  lemma {:induction false} SameHashes(s: Store, prompt: seq<int32>, blocks: seq<nat>, hashes: seq<u64>, i: nat, j: nat)
    requires s.cache.blockSize > 0 && IsMatch(s, prompt, blocks, hashes) && i < j < |blocks|
    requires hashes[i] == hashes[j]
    ensures RepeatsAt(prompt, s.cache.blockSize, |blocks|, j - i)
    decreases i
  {
    hide Fnv.BlockHash, Shareable, CacheableBlocks, BlockOf;
    var size := s.cache.blockSize;
    assert MatchedAt(s, prompt, blocks, hashes, i) && MatchedAt(s, prompt, blocks, hashes, j);
    if i > 0 {
      assert MatchedAt(s, prompt, blocks, hashes, i - 1) && MatchedAt(s, prompt, blocks, hashes, j - 1);
      SameHashes(s, prompt, blocks, hashes, i - 1, j - 1);
    } else {
      StartUpTo(size, j, j + 1);
    }
  }

  // ---------------------------------------------------------------- confusing prefixes

  // Block i lies inside.
  predicate Fits(p: seq<int32>, size: nat, i: nat) {
    Start(size, i) <= |p| && Start(size, i + 1) <= |p|
  }

  // Equal hashes among the first n blocks are made from equal hashes and equal
  // blocks: what one entry per hash can serve.
  ghost predicate Steady(q: seq<int32>, size: nat, n: nat) {
    forall i, j :: 0 <= i < n && 0 <= j < n ==> SteadyAt(q, size, i, j)
  }

  ghost predicate SteadyAt(q: seq<int32>, size: nat, i: nat, j: nat) {
    && Fits(q, size, i) && Fits(q, size, j)
    && (Chain(q, size, i + 1) == Chain(q, size, j + 1) ==>
          Chain(q, size, i) == Chain(q, size, j) && BlockOf(q, size, i) == BlockOf(q, size, j))
  }

  lemma MatchSteady(s: Store, prompt: seq<int32>, blocks: seq<nat>, hashes: seq<u64>)
    requires s.cache.blockSize > 0 && IsMatch(s, prompt, blocks, hashes)
    ensures Steady(prompt, s.cache.blockSize, |blocks|)
  {
    hide Chain, CacheableBlocks, BlockOf;
    forall i, j | 0 <= i < |blocks| && 0 <= j < |blocks| ensures SteadyAt(prompt, s.cache.blockSize, i, j) {
      assert MatchedAt(s, prompt, blocks, hashes, i) && MatchedAt(s, prompt, blocks, hashes, j);
    }
  }

  // Block a of p and block b of q are the same tokens behind the same hash, but
  // the blocks before them differ, or only one of them has any before it. The
  // chained hash takes them for one block of one context. A lookup of q gets
  // this far, and both blocks may be shared.
  ghost predicate Fork(p: seq<int32>, a: nat, q: seq<int32>, b: nat, size: nat)
    requires size > 0
  {
    && a < CacheableBlocks(|p|, size) && b < CacheableBlocks(|q|, size)
    && Fits(p, size, a) && Fits(q, size, b)
    && Chain(p, size, a) == Chain(q, size, b) && BlockOf(p, size, a) == BlockOf(q, size, b)
    && (if a == 0 || b == 0 then a != b else BlockOf(p, size, a - 1) != BlockOf(q, size, b - 1))
    && Steady(q, size, b + 1)
  }

  ghost predicate NoFork(seen: set<seq<int32>>, size: nat)
    requires size > 0
  {
    forall p, a, q, b :: p in seen && q in seen ==> !Fork(p, a, q, b, size)
  }

  lemma CacheableFits(p: seq<int32>, size: nat, i: nat)
    requires size > 0 && i < CacheableBlocks(|p|, size)
    ensures Fits(p, size, i)
  {
    StartUpTo(size, i, CacheableBlocks(|p|, size));
    StartUpTo(size, i + 1, CacheableBlocks(|p|, size));
  }

  lemma SteadyPart(q: seq<int32>, size: nat, n: nat, m: nat)
    requires Steady(q, size, n) && m <= n
    ensures Steady(q, size, m)
  {
    hide SteadyAt;
  }

  lemma PrefixGrows(p: seq<int32>, size: nat, i: nat)
    requires Fits(p, size, i)
    ensures p[..Start(size, i + 1)] == p[..Start(size, i)] + BlockOf(p, size, i)
  {}

  // Where no two prompts fork, equal hashes in front of equal blocks mean equal
  // contexts: going back block by block, the chain is injective.
  lemma {:induction false} SameContext(seen: set<seq<int32>>, size: nat, p: seq<int32>, a: nat, q: seq<int32>, b: nat)
    requires size > 0 && NoFork(seen, size) && p in seen && q in seen
    requires a < CacheableBlocks(|p|, size) && b < CacheableBlocks(|q|, size)
    requires Fits(p, size, a) && Fits(q, size, b) && Steady(q, size, b + 1)
    requires Chain(p, size, a) == Chain(q, size, b) && BlockOf(p, size, a) == BlockOf(q, size, b)
    ensures a == b && p[..Start(size, a)] == q[..Start(size, b)]
    decreases b
  {
    hide Fnv.BlockHash, BlockOf, CacheableBlocks, NoFork, Fits;
    assert !Fork(p, a, q, b, size) by {
      NotForked(seen, size, p, a, q, b);
    }
    if a > 0 && b > 0 {
      CacheableFits(p, size, a - 1);
      CacheableFits(q, size, b - 1);
      FitsIs(p, size, a - 1);
      FitsIs(q, size, b - 1);
      assert BlockOf(p, size, a - 1) == BlockOf(q, size, b - 1);
      Fnv.BlockHashInjective(Chain(p, size, a - 1), Chain(q, size, b - 1), BlockOf(p, size, a - 1));
      SteadyPart(q, size, b + 1, b);
      SameContext(seen, size, p, a - 1, q, b - 1);
      PrefixGrows(p, size, a - 1);
      PrefixGrows(q, size, b - 1);
    }
  }

  lemma FitsIs(p: seq<int32>, size: nat, i: nat)
    requires Fits(p, size, i)
    ensures Start(size, i) <= |p| && Start(size, i + 1) <= |p|
  {}

  lemma NotForked(seen: set<seq<int32>>, size: nat, p: seq<int32>, a: nat, q: seq<int32>, b: nat)
    requires size > 0 && NoFork(seen, size) && p in seen && q in seen
    ensures !Fork(p, a, q, b, size)
  {
    hide Fork;
  }

  // The contexts of a fork are different.
  lemma ForkDiffers(p: seq<int32>, a: nat, q: seq<int32>, b: nat, size: nat)
    requires size > 0 && Fork(p, a, q, b, size)
    ensures Start(size, a) <= |p| && Start(size, b) <= |q| && p[..Start(size, a)] != q[..Start(size, b)]
  {
    hide Chain, CacheableBlocks, Steady;
    if a < b {
      StartUpTo(size, a, b);
      assert |p[..Start(size, a)]| < |q[..Start(size, b)]|;
    } else if b < a {
      StartUpTo(size, b, a);
      assert |p[..Start(size, a)]| > |q[..Start(size, b)]|;
    } else {
      assert a > 0;
      var i: nat := a - 1;
      var x, y := p[..Start(size, a)], q[..Start(size, b)];
      assert BlockOf(p, size, i) == x[Start(size, i)..];
      assert BlockOf(q, size, i) == y[Start(size, i)..];
    }
  }

  // A repetition is a fork of a prompt with itself.
  lemma RepeatForks(prompt: seq<int32>, size: nat, n: nat)
    requires size > 0 && n <= CacheableBlocks(|prompt|, size) && Steady(prompt, size, n) && Repeats(prompt, size, n)
    ensures exists m :: Fork(prompt, 0, prompt, m, size)
  {
    hide BlockOf, CacheableBlocks, RepeatsAt;
    var m: nat :| RepeatsAt(prompt, size, n, m);
    IsRepeat(prompt, size, n, m);
    SteadyPart(prompt, size, n, m + 1);
    assert Fork(prompt, 0, prompt, m, size);
  }

  lemma IsRepeat(prompt: seq<int32>, size: nat, n: nat, m: nat)
    requires RepeatsAt(prompt, size, n, m)
    ensures 1 <= m < n && Fits(prompt, size, m) && Fits(prompt, size, 0)
    ensures Chain(prompt, size, m) == 0 && BlockOf(prompt, size, m) == BlockOf(prompt, size, 0)
  {
    hide Chain;
  }
}
