/**
 One device pool of the caching allocator and the driver it grows from.
 */
module DevicePools {
  import opened Wrappers
  import opened PoolBlocks

  const MIN_IDLE_FLUSH: nat := 1024 * 1024 * 1024
  const LARGEST_REQUEST: nat := SIZE_MODULUS - ALIGNMENT

  // ---------------------------------------------------------------- the driver

  ghost predicate RangesApart(live: Regions) {
    && (forall p: nat :: p in live ==> p > 0 && p % ALIGNMENT == 0 && live[p] > 0)
    && (forall p: nat, q: nat :: p in live && q in live && p != q ==> p + live[p] <= q || q + live[q] <= p)
  }

  // [p, p + size) meets none of the live ranges.
  predicate Unused(live: Regions, p: nat, size: nat) {
    p > 0 && p % ALIGNMENT == 0 && forall q: nat :: q in live ==> q + live[q] <= p || p + size <= q
  }

  lemma {:induction false} SomeUnused(live: Regions, size: nat)
    ensures exists p: nat :: p > 0 && p % ALIGNMENT == 0 && forall q: nat :: q in live ==> q + live[q] <= p
    decreases live.Keys
  {
    if live == map[] {
      assert ALIGNMENT % ALIGNMENT == 0;
    } else {
      var r: nat :| r in live;
      SomeUnused(live - {r}, size);
      var p: nat :| p > 0 && p % ALIGNMENT == 0 && forall q: nat :: q in live - {r} ==> q + live[q] <= p;
      var p1 := p + (r + live[r]) * ALIGNMENT;
      assert p1 % ALIGNMENT == 0;
      assert forall q: nat :: q in live ==> q in live - {r} || q == r;
    }
  }

  lemma UnusedExists(live: Regions, size: nat)
    requires RangesApart(live)
    ensures exists p: nat :: Unused(live, p, size)
  {
    SomeUnused(live, size);
    var p: nat :| p > 0 && p % ALIGNMENT == 0 && forall q: nat :: q in live ==> q + live[q] <= p;
    assert Unused(live, p, size);
  }

  lemma UnusedIsApart(live: Regions, p: nat, size: nat)
    requires RangesApart(live) && Unused(live, p, size) && size > 0
    ensures p !in live
    ensures RangesApart(live[p := size])
  {
  }

  // What the driver was asked, and what it answered.
  datatype Call = Asked(size: nat, granted: bool) | Offered(base: nat, accepted: bool) | Queried(answered: bool)

  ghost function Refused(log: seq<Call>): set<nat> {
    set c | c in log && c.Offered? && !c.accepted :: c.base
  }

  // cudaMalloc and cudaFree: they may fail at any time, and what they hand out
  // is aligned and overlaps nothing handed out before. Every call is recorded.
  class Driver {
    var live: Regions
    ghost var calls: seq<Call>
    const total: nat

    ghost predicate Valid()
      reads this
    {
      RangesApart(live)
    }

    constructor (total: nat)
      ensures Valid() && live == map[] && calls == [] && this.total == total
    {
      live := map[];
      calls := [];
      this.total := total;
    }

    method Malloc(size: nat) returns (ptr: Option<nat>)
      requires Valid() && size > 0
      modifies this
      ensures Valid()
      ensures ptr.None? ==> live == old(live)
      ensures ptr.Some? ==> Unused(old(live), ptr.value, size) && live == old(live)[ptr.value := size]
      ensures ptr.Some? ==> ptr.value !in old(live)
      ensures calls == old(calls) + [Asked(size, ptr.Some?)]
    {
      var works: bool := *;
      calls := calls + [Asked(size, works)];
      if !works {
        return None;
      }
      UnusedExists(live, size);
      var p: nat :| Unused(live, p, size);
      UnusedIsApart(live, p, size);
      live := live[p := size];
      return Some(p);
    }

    method Free(p: nat) returns (ok: bool)
      requires Valid()
      modifies this
      ensures Valid()
      ensures ok ==> p in old(live) && live == old(live) - {p}
      ensures !ok ==> live == old(live)
      ensures calls == old(calls) + [Offered(p, ok)]
    {
      var works: bool := *;
      ok := works && p in live;
      calls := calls + [Offered(p, ok)];
      if ok {
        live := live - {p};
      }
    }

    // Total device memory, 0 when the query fails.
    method MemTotal() returns (bytes: nat, ghost answered: bool)
      requires Valid()
      modifies this
      ensures Valid() && live == old(live)
      ensures calls == old(calls) + [Queried(answered)]
      ensures bytes == if answered then total else 0
    {
      var works: bool := *;
      calls, answered := calls + [Queried(works)], works;
      bytes := if works then total else 0;
    }
  }

  // ---------------------------------------------------------------- the pool

  datatype DevicePool = DevicePool(
    blocks: seq<Block>,
    regions: Regions,
    idleBytes: nat,
    reservedBytes: nat,
    flushThreshold: nat)

  const EmptyPool: DevicePool := DevicePool([], map[], 0, 0, 0)

  ghost predicate Ledgers(pool: DevicePool) {
    && pool.idleBytes == Sum(pool.blocks, true)
    && pool.reservedBytes == Sum(pool.blocks, false)
    && pool.reservedBytes == RegionBytes(pool.regions)
  }

  ghost predicate PoolValid(pool: DevicePool) {
    PoolOk(pool.blocks, pool.regions) && Ledgers(pool) && Coalesced(pool.blocks)
  }

  lemma EmptyPoolValid()
    ensures PoolValid(EmptyPool) && Live(EmptyPool.blocks) == {}
  {
    assert RegionBytes(map[]) == 0;
  }

  // The regions of a pool are ranges the driver has handed out.
  ghost predicate Owned(regions: Regions, live: Regions) {
    forall r: nat :: r in regions ==> r in live && live[r] == regions[r]
  }

  // From one state of pool and driver to the next, nobody else's range is
  // touched and a new region comes fresh from the driver.
  ghost predicate OwnStep(regions: Regions, regions1: Regions, live: Regions, live1: Regions) {
    && Owned(regions1, live1)
    && (forall q: nat :: q in live && q !in regions ==> q in live1 && live1[q] == live[q])
    && (forall q: nat :: q in regions1 ==> q in regions || q !in live)
  }

  predicate Fits(b: Block, wanted: nat) {
    !b.busy && b.size >= wanted
  }

  // The first of the smallest idle blocks that are large enough.
  ghost predicate IsBest(bs: seq<Block>, wanted: nat, i: nat) {
    && i < |bs| && Fits(bs[i], wanted)
    && (forall j :: 0 <= j < |bs| && Fits(bs[j], wanted) ==> bs[i].size <= bs[j].size)
    && (forall j :: 0 <= j < i && Fits(bs[j], wanted) ==> bs[i].size < bs[j].size)
  }

  ghost predicate NoneFits(bs: seq<Block>, wanted: nat) {
    forall j :: 0 <= j < |bs| ==> !Fits(bs[j], wanted)
  }

  method BestFit(bs: seq<Block>, wanted: nat) returns (best: nat)
    ensures best <= |bs|
    ensures best < |bs| ==> IsBest(bs, wanted, best)
    ensures best == |bs| <==> NoneFits(bs, wanted)
  {
    best := |bs|;
    for i := 0 to |bs|
      invariant best < i || best == |bs|
      invariant best == |bs| ==> forall j :: 0 <= j < i ==> !Fits(bs[j], wanted)
      invariant best < |bs| ==> Fits(bs[best], wanted)
      invariant best < |bs| ==> forall j :: 0 <= j < i && Fits(bs[j], wanted) ==> bs[best].size <= bs[j].size
      invariant best < |bs| ==> forall j :: 0 <= j < best && Fits(bs[j], wanted) ==> bs[best].size < bs[j].size
    {
      if bs[i].busy || bs[i].size < wanted {
        continue;
      }
      if best == |bs| || bs[i].size < bs[best].size {
        best := i;
      }
    }
  }

  // ---------------------------------------------------------------- merging

  // What merging around block index has done so far.
  ghost predicate Merging(bs: seq<Block>, index: nat, bs1: seq<Block>, index1: nat, regions: Regions) {
    && index < |bs| && index1 < |bs1| <= |bs| && !bs1[index1].busy
    && SameHoldings(bs, bs1, regions)
    && (CoalescedBut(bs, index) ==> CoalescedBut(bs1, index1))
    && (|bs1| == |bs| ==> bs1 == bs && index1 == index)
  }

  lemma MergeStep(bs: seq<Block>, index: nat, bs1: seq<Block>, index1: nat, j: nat, regions: Regions)
    requires Merging(bs, index, bs1, index1, regions)
    requires j < |bs1| && j != index1 && Touching(bs1[index1], bs1[j])
    ensures Merging(bs, index, Absorbed(bs1, index1, j), Shifted(index1, j), regions)
  {
    hide PoolOk, Live, Sum, CoalescedBut, Touching, Absorbed;
    AbsorbSameHoldings(bs1, index1, j, regions);
    AbsorbedAt(bs1, index1, j);
    if CoalescedBut(bs, index) {
      AbsorbCoalesced(bs1, index1, j);
    }
  }

  // The idle block at `index` absorbs its idle neighbours until none is left.
  method MergeIdleNeighbours(pool: DevicePool, index: nat) returns (r: DevicePool)
    requires index < |pool.blocks| && !pool.blocks[index].busy
    ensures r == pool.(blocks := r.blocks)
    ensures |r.blocks| <= |pool.blocks|
    ensures SameHoldings(pool.blocks, r.blocks, pool.regions)
    ensures CoalescedBut(pool.blocks, index) ==> Coalesced(r.blocks)
    ensures |r.blocks| == |pool.blocks| ==> r == pool
    ensures |r.blocks| == |pool.blocks| <==> NoNeighbour(pool.blocks, index)
  {
    hide PoolOk, Live, Sum, CoalescedBut, Absorbed, SameHoldings, Touching, NoNeighbour, Merging;
    var blocks := pool.blocks;
    var at: nat := index;
    var merged := true;
    Start(blocks, at, pool.regions);
    ghost var none := NoNeighbour(blocks, at);
    while merged
      invariant at < |blocks| <= |pool.blocks| && !blocks[at].busy
      invariant Merging(pool.blocks, index, blocks, at, pool.regions)
      invariant !merged ==> NoNeighbour(blocks, at)
      invariant |blocks| == |pool.blocks| ==> blocks == pool.blocks && at == index
      invariant |blocks| < |pool.blocks| ==> !none
      decreases |blocks|, merged
    {
      merged := false;
      var j := FirstNeighbour(blocks, at);
      if j < |blocks| {
        MergeStep(pool.blocks, index, blocks, at, j, pool.regions);
        AbsorbedAt(blocks, at, j);
        if |blocks| == |pool.blocks| {
          HasNeighbour(blocks, at, j);
        }
        blocks, at := Absorbed(blocks, at, j), Shifted(at, j);
        merged := true;
      }
    }
    Finish(pool.blocks, index, blocks, at, pool.regions);
    r := pool.(blocks := blocks);
  }

  lemma HasNeighbour(bs: seq<Block>, i: nat, j: nat)
    requires i < |bs| && j < |bs| && i != j && Touching(bs[i], bs[j])
    ensures !NoNeighbour(bs, i)
  {}

  lemma Start(bs: seq<Block>, index: nat, regions: Regions)
    requires index < |bs| && !bs[index].busy
    ensures Merging(bs, index, bs, index, regions)
  {
    hide PoolOk, Live, Sum, CoalescedBut;
  }

  lemma Finish(bs: seq<Block>, index: nat, bs1: seq<Block>, index1: nat, regions: Regions)
    requires Merging(bs, index, bs1, index1, regions) && NoNeighbour(bs1, index1)
    ensures SameHoldings(bs, bs1, regions)
    ensures CoalescedBut(bs, index) ==> Coalesced(bs1)
    ensures |bs1| == |bs| ==> bs1 == bs && NoNeighbour(bs, index)
  {
    hide PoolOk, Live, Sum, CoalescedBut, SameHoldings, NoNeighbour;
    if CoalescedBut(bs, index) {
      NoNeighbourCoalesced(bs1, index1);
    }
  }

  // The first idle block of the same region that touches the one at `index`.
  method FirstNeighbour(bs: seq<Block>, index: nat) returns (j: nat)
    requires index < |bs| && !bs[index].busy
    ensures j <= |bs|
    ensures j < |bs| ==> j != index && Touching(bs[index], bs[j])
    ensures j == |bs| <==> NoNeighbour(bs, index)
  {
    j := 0;
    while j < |bs|
      invariant j <= |bs|
      invariant forall k :: 0 <= k < j && k != index ==> !Touching(bs[index], bs[k])
    {
      if j == index || bs[j].busy || bs[j].region != bs[index].region {
        j := j + 1;
        continue;
      }
      if bs[j].End() == bs[index].data || bs[index].End() == bs[j].data {
        assert Touching(bs[index], bs[j]);
        return;
      }
      j := j + 1;
    }
  }

  // On a pool with nothing to merge this changes nothing.
  method MergeAllIdle(pool: DevicePool) returns (r: DevicePool)
    ensures r == pool.(blocks := r.blocks)
    ensures SameHoldings(pool.blocks, r.blocks, pool.regions)
    ensures Coalesced(r.blocks)
    ensures Coalesced(pool.blocks) ==> r == pool
  {
    hide PoolOk, Live, Sum, CoalescedBut, SameHoldings, Touching, NoNeighbour;
    r := pool;
    var merged := true;
    SameAsBefore(pool.blocks, pool.regions);
    while merged
      invariant r == pool.(blocks := r.blocks)
      invariant SameHoldings(pool.blocks, r.blocks, pool.regions)
      invariant !merged ==> Coalesced(r.blocks)
      invariant Coalesced(pool.blocks) ==> r == pool
      decreases |r.blocks|, merged
    {
      merged := false;
      var i := 0;
      var before := r;
      while i < |r.blocks| && !merged
        invariant i <= |r.blocks| <= |before.blocks|
        invariant merged <==> |r.blocks| < |before.blocks|
        invariant !merged ==> r == before
        invariant r == pool.(blocks := r.blocks)
        invariant SameHoldings(pool.blocks, r.blocks, pool.regions)
        invariant Coalesced(pool.blocks) ==> r == pool
        invariant !merged ==> forall k :: 0 <= k < i && !r.blocks[k].busy ==> NoNeighbour(r.blocks, k)
        decreases !merged, |r.blocks| - i
      {
        if r.blocks[i].busy {
          i := i + 1;
          continue;
        }
        var next := MergeIdleNeighbours(r, i);
        SameHoldingsChain(pool.blocks, r.blocks, next.blocks, pool.regions);
        if Coalesced(pool.blocks) {
          CoalescedMeansNone(r.blocks, i);
        }
        merged := |next.blocks| != |r.blocks|;
        r := next;
        i := if merged then 0 else i + 1;
      }
      if !merged {
        NoneMeansCoalesced(r.blocks);
      }
    }
  }

  lemma SameAsBefore(bs: seq<Block>, regions: Regions)
    ensures SameHoldings(bs, bs, regions)
  {
    hide PoolOk, Live, Sum;
  }

  lemma SameHoldingsChain(a: seq<Block>, b: seq<Block>, c: seq<Block>, regions: Regions)
    requires SameHoldings(a, b, regions) && SameHoldings(b, c, regions)
    ensures SameHoldings(a, c, regions)
  {
    hide PoolOk, Live, Sum;
  }

  lemma CoalescedMeansNone(bs: seq<Block>, i: nat)
    requires Coalesced(bs) && i < |bs|
    ensures NoNeighbour(bs, i)
  {}

  lemma NoneMeansCoalesced(bs: seq<Block>)
    requires forall k :: 0 <= k < |bs| && !bs[k].busy ==> NoNeighbour(bs, k)
    ensures Coalesced(bs)
  {
    forall j, k | 0 <= j < |bs| && 0 <= k < |bs| && j != k ensures !Touching(bs[j], bs[k]) {
      if !bs[j].busy {
        assert NoNeighbour(bs, j);
      }
    }
  }

  // Gives back the block that starts at ptr. A block that is already idle is
  // left alone; an unknown pointer is reported.
  method ReleaseLocked(pool: DevicePool, ptr: nat) returns (r: DevicePool, found: bool)
    requires PoolValid(pool)
    ensures PoolValid(r)
    ensures found <==> exists b :: b in pool.blocks && b.data == ptr
    ensures r.regions == pool.regions && r.flushThreshold == pool.flushThreshold
    ensures r.reservedBytes == pool.reservedBytes
    ensures Live(r.blocks) == (set x | x in Live(pool.blocks) && x.0 != ptr)
    ensures Live(r.blocks) == Live(pool.blocks) ==> r == pool
    ensures forall x :: x in Live(pool.blocks) && x.0 == ptr ==> r.idleBytes == pool.idleBytes + x.1
  {
    hide PoolOk, Live, Sum, CoalescedBut, SameHoldings, Touching, Ledgers;
    for i := 0 to |pool.blocks|
      invariant forall k :: 0 <= k < i ==> pool.blocks[k].data != ptr
    {
      if pool.blocks[i].data != ptr {
        continue;
      }
      StartsHere(pool, ptr, i);
      if pool.blocks[i].busy {
        var b := pool.blocks[i];
        var freed := pool.(blocks := pool.blocks[i := b.(busy := false)], idleBytes := pool.idleBytes + b.size);
        GiveBack(pool.blocks, i, pool.regions);
        var merged := MergeIdleNeighbours(freed, i);
        Returned(pool, freed, merged, i);
        assert b in pool.blocks;
        return merged, true;
      } else {
        assert pool.blocks[i] in pool.blocks;
        return pool, true;
      }
    }
    NotHere(pool.blocks, ptr);
    return pool, false;
  }

  lemma StartsHere(pool: DevicePool, ptr: nat, i: nat)
    requires PoolValid(pool) && i < |pool.blocks| && pool.blocks[i].data == ptr
    ensures pool.blocks[i].busy ==>
              (set x | x in Live(pool.blocks) && x.0 != ptr) == Live(pool.blocks) - {(ptr, pool.blocks[i].size)}
    ensures pool.blocks[i].busy ==>
              (forall x :: x in Live(pool.blocks) && x.0 == ptr ==> x == (ptr, pool.blocks[i].size))
    ensures !pool.blocks[i].busy ==> (forall x :: x in Live(pool.blocks) ==> x.0 != ptr)
    ensures !pool.blocks[i].busy ==> (set x | x in Live(pool.blocks) && x.0 != ptr) == Live(pool.blocks)
  {
    var bs := pool.blocks;
    forall x | x in Live(bs) && x.0 == ptr ensures bs[i].busy && x == (ptr, bs[i].size) {
      var c :| c in bs && c.busy && x == (c.data, c.size);
      var k :| 0 <= k < |bs| && bs[k] == c;
      assert bs[i] in bs && Placed(bs[i], pool.regions) && Placed(bs[k], pool.regions);
      assert k != i ==> Apart(bs[i], bs[k]);
    }
  }

  lemma Returned(pool: DevicePool, freed: DevicePool, merged: DevicePool, i: nat)
    requires PoolValid(pool) && i < |pool.blocks| && pool.blocks[i].busy
    requires freed == pool.(blocks := pool.blocks[i := pool.blocks[i].(busy := false)],
                            idleBytes := pool.idleBytes + pool.blocks[i].size)
    requires merged == freed.(blocks := merged.blocks)
    requires SameHoldings(freed.blocks, merged.blocks, pool.regions) && Coalesced(merged.blocks)
    ensures PoolValid(merged)
    ensures Live(merged.blocks) == Live(pool.blocks) - {(pool.blocks[i].data, pool.blocks[i].size)}
    ensures (pool.blocks[i].data, pool.blocks[i].size) in Live(pool.blocks)
  {
    hide PoolOk, Live, Sum, CoalescedBut;
    GiveBack(pool.blocks, i, pool.regions);
  }

  lemma NotHere(bs: seq<Block>, ptr: nat)
    requires forall k :: 0 <= k < |bs| ==> bs[k].data != ptr
    ensures !exists b :: b in bs && b.data == ptr
    ensures forall x :: x in Live(bs) ==> x.0 != ptr
    ensures (set x | x in Live(bs) && x.0 != ptr) == Live(bs)
  {}

  // ---------------------------------------------------------------- returning regions

  ghost function WholeRegions(bs: seq<Block>, regions: Regions): set<nat> {
    set b | b in bs && WholeIdle(b, regions) :: b.region
  }

  // The first i blocks have been looked at: `kept` stays, `freed` is gone.
  ghost predicate Draining(pool: DevicePool, r: DevicePool, kept: seq<Block>, i: nat, freed: set<nat>, failed: set<nat>) {
    && i <= |pool.blocks|
    && r == pool.(regions := pool.regions - freed, idleBytes := r.idleBytes, reservedBytes := r.reservedBytes)
    && kept == Without(pool.blocks[..i], freed)
    && PoolOk(kept + pool.blocks[i..], r.regions)
    && Ledgers(r.(blocks := kept + pool.blocks[i..]))
    && Live(kept + pool.blocks[i..]) == Live(pool.blocks)
    && (Coalesced(pool.blocks) ==> Coalesced(kept + pool.blocks[i..]))
    && freed !! failed
    && freed + failed == WholeRegions(pool.blocks[..i], pool.regions)
  }

  lemma DrainStart(pool: DevicePool)
    requires PoolOk(pool.blocks, pool.regions) && Ledgers(pool)
    ensures Draining(pool, pool, [], 0, {}, {})
  {
    hide PoolOk, Ledgers, Coalesced, Live;
    assert [] + pool.blocks[0..] == pool.blocks;
    assert pool.blocks[..0] == [];
    assert pool.regions - {} == pool.regions;
    assert pool == pool.(blocks := [] + pool.blocks[0..]);
  }

  // The next block's region is still there.
  lemma NextIn(pool: DevicePool, r: DevicePool, kept: seq<Block>, i: nat, freed: set<nat>, failed: set<nat>)
    requires Draining(pool, r, kept, i, freed, failed) && i < |pool.blocks|
    ensures pool.blocks[i].region in r.regions && pool.blocks[i].region !in freed
    ensures WholeIdle(pool.blocks[i], r.regions) <==> WholeIdle(pool.blocks[i], pool.regions)
    ensures (kept + pool.blocks[i..])[|kept|] == pool.blocks[i]
    ensures Remove(kept + pool.blocks[i..], |kept|) == kept + pool.blocks[i + 1..]
    ensures kept + pool.blocks[i..] == (kept + [pool.blocks[i]]) + pool.blocks[i + 1..]
  {
    var cur := kept + pool.blocks[i..];
    assert cur[|kept|] == pool.blocks[i];
    assert pool.blocks[i] in cur;
    assert Placed(pool.blocks[i], r.regions);
  }

  lemma WholeRegionsMore(bs: seq<Block>, i: nat, regions: Regions)
    requires i < |bs|
    ensures WholeRegions(bs[..i + 1], regions)
         == WholeRegions(bs[..i], regions) + (if WholeIdle(bs[i], regions) then {bs[i].region} else {})
  {
    assert bs[..i + 1] == bs[..i] + [bs[i]];
    assert forall c :: c in bs[..i + 1] <==> c in bs[..i] || c == bs[i];
  }

  lemma DrainFree(pool: DevicePool, r: DevicePool, kept: seq<Block>, i: nat, freed: set<nat>, failed: set<nat>)
    requires PoolOk(pool.blocks, pool.regions)
    requires Draining(pool, r, kept, i, freed, failed) && i < |pool.blocks| && WholeIdle(pool.blocks[i], r.regions)
    ensures r.idleBytes >= pool.blocks[i].size && r.reservedBytes >= pool.blocks[i].size
    ensures Draining(pool,
                     r.(regions := r.regions - {pool.blocks[i].region},
                        idleBytes := r.idleBytes - pool.blocks[i].size,
                        reservedBytes := r.reservedBytes - pool.blocks[i].size),
                     kept, i + 1, freed + {pool.blocks[i].region}, failed)
  {
    hide PoolOk, Coalesced, Live, WholeRegions, Sum, Remove, Without, RegionBytes;
    var b := pool.blocks[i];
    var cur := kept + pool.blocks[i..];
    NextIn(pool, r, kept, i, freed, failed);
    DropRegion(cur, |kept|, r.regions);
    SumRemove(cur, |kept|, true);
    SumRemove(cur, |kept|, false);
    RegionBytesOf(r.regions, b.region);
    WholeRegionsMore(pool.blocks, i, pool.regions);
    WholeIsOnly(pool.blocks, i, pool.regions);
    EarlierElsewhere(pool.blocks, i, pool.regions);
    WithoutMore(pool.blocks[..i], freed, b.region);
    WithoutLast(pool.blocks, i, freed + {b.region});
    assert r.regions - {b.region} == pool.regions - (freed + {b.region});
  }

  lemma EarlierElsewhere(bs: seq<Block>, i: nat, regions: Regions)
    requires i < |bs| && forall j :: 0 <= j < |bs| && j != i ==> bs[j].region != bs[i].region
    ensures forall b :: b in bs[..i] ==> b.region != bs[i].region
    ensures bs[i].region !in WholeRegions(bs[..i], regions)
  {}

  lemma WithoutLast(bs: seq<Block>, i: nat, freed: set<nat>)
    requires i < |bs|
    ensures Without(bs[..i + 1], freed) == Without(bs[..i], freed) + (if bs[i].region in freed then [] else [bs[i]])
  {
    assert bs[..i + 1][..i] == bs[..i];
  }

  lemma DrainKeep(pool: DevicePool, r: DevicePool, kept: seq<Block>, i: nat, freed: set<nat>, failed: set<nat>)
    requires PoolOk(pool.blocks, pool.regions)
    requires Draining(pool, r, kept, i, freed, failed) && i < |pool.blocks|
    ensures Draining(pool, r, kept + [pool.blocks[i]], i + 1, freed,
                     if WholeIdle(pool.blocks[i], r.regions) then failed + {pool.blocks[i].region} else failed)
  {
    hide PoolOk, Coalesced, Live, WholeRegions, Remove, Without, Ledgers;
    NextIn(pool, r, kept, i, freed, failed);
    WholeRegionsMore(pool.blocks, i, pool.regions);
    WithoutLast(pool.blocks, i, freed);
  }

  // What returning idle regions does to a pool.
  ghost predicate Drained(pool: DevicePool, r: DevicePool, freed: set<nat>, failed: set<nat>) {
    && r.blocks == Without(pool.blocks, freed)
    && r.regions == pool.regions - freed
    && r.flushThreshold == pool.flushThreshold
    && PoolOk(r.blocks, r.regions) && Ledgers(r)
    && Live(r.blocks) == Live(pool.blocks)
    && (Coalesced(pool.blocks) ==> Coalesced(r.blocks))
    && freed !! failed && freed + failed == WholeRegions(pool.blocks, pool.regions)
    && WholeRegions(r.blocks, r.regions) <= failed
  }

  lemma DrainEnd(pool: DevicePool, r: DevicePool, kept: seq<Block>, freed: set<nat>, failed: set<nat>)
    requires PoolOk(pool.blocks, pool.regions)
    requires Draining(pool, r, kept, |pool.blocks|, freed, failed)
    ensures Drained(pool, r.(blocks := kept), freed, failed)
  {
    hide PoolOk, Coalesced, Live, Ledgers;
    assert pool.blocks[..|pool.blocks|] == pool.blocks;
    assert kept + pool.blocks[|pool.blocks|..] == kept;
    WithoutFrom(pool.blocks, freed);
  }

  lemma {:induction false} WithoutFrom(bs: seq<Block>, freed: set<nat>)
    ensures forall b :: b in Without(bs, freed) <==> b in bs && b.region !in freed
  {
    if bs != [] {
      var n := |bs| - 1;
      WithoutFrom(bs[..n], freed);
      assert bs == bs[..n] + [bs[n]];
    }
  }

  // One offer for every region that is one idle block, in the order of the
  // blocks; those in `freed` are accepted.
  ghost function Offers(bs: seq<Block>, regions: Regions, freed: set<nat>): seq<Call> {
    if bs == [] then []
    else
      var n := |bs| - 1;
      Offers(bs[..n], regions, freed)
      + (if WholeIdle(bs[n], regions) then [Offered(bs[n].region, bs[n].region in freed)] else [])
  }

  lemma OffersLast(bs: seq<Block>, i: nat, regions: Regions, freed: set<nat>)
    requires i < |bs|
    ensures Offers(bs[..i + 1], regions, freed) == Offers(bs[..i], regions, freed)
         + (if WholeIdle(bs[i], regions) then [Offered(bs[i].region, bs[i].region in freed)] else [])
  {
    assert bs[..i + 1][..i] == bs[..i];
  }

  lemma {:induction false} OffersMore(bs: seq<Block>, regions: Regions, freed: set<nat>, r: nat)
    requires forall b :: b in bs ==> b.region != r
    ensures Offers(bs, regions, freed + {r}) == Offers(bs, regions, freed)
  {
    if bs != [] {
      var n := |bs| - 1;
      assert bs[n] in bs;
      OffersMore(bs[..n], regions, freed, r);
    }
  }

  // Exactly the wholly idle regions are offered, each with its answer.
  lemma {:induction false} OffersAre(bs: seq<Block>, regions: Regions, freed: set<nat>)
    ensures forall c :: c in Offers(bs, regions, freed) <==>
              c.Offered? && c.base in WholeRegions(bs, regions) && c.accepted == (c.base in freed)
    ensures Refused(Offers(bs, regions, freed)) == WholeRegions(bs, regions) - freed
  {
    if bs != [] {
      var n := |bs| - 1;
      OffersAre(bs[..n], regions, freed);
      OffersLast(bs, n, regions, freed);
      WholeRegionsMore(bs, n, regions);
      assert bs[..n + 1] == bs;
    }
    var log, whole := Offers(bs, regions, freed), WholeRegions(bs, regions);
    forall base | base in whole - freed ensures base in Refused(log) {
      assert Offered(base, false) in log;
    }
  }

  // When the driver takes everything it is offered, no idle region is left, and
  // what went is exactly the regions in which nothing is held.
  lemma NoRefusal(pool: DevicePool, r: DevicePool, freed: set<nat>, failed: set<nat>)
    requires PoolValid(pool) && Drained(pool, r, freed, failed)
    requires Refused(Offers(pool.blocks, pool.regions, freed)) == {}
    ensures WholeRegions(r.blocks, r.regions) == {}
    ensures forall base :: base in pool.regions && pool.regions[base] > 0 ==>
              (base in freed <==> forall b :: b in pool.blocks && b.region == base ==> !b.busy)
  {
    hide PoolOk, Ledgers, Live, Without, Offers;
    OffersAre(pool.blocks, pool.regions, freed);
    assert failed == {};
    forall base | base in pool.regions && pool.regions[base] > 0
      ensures base in freed <==> forall b :: b in pool.blocks && b.region == base ==> !b.busy
    {
      IdleRegionIsWhole(pool.blocks, pool.regions, base);
      assert base in WholeRegions(pool.blocks, pool.regions) <==>
             exists b :: b in pool.blocks && b.region == base && WholeIdle(b, pool.regions);
    }
  }

  // Hands every region that is one idle block back to the driver.
  method FreeRegions(pool: DevicePool, driver: Driver)
    returns (r: DevicePool, freedBytes: nat, ghost freed: set<nat>, ghost failed: set<nat>)
    requires PoolOk(pool.blocks, pool.regions) && Ledgers(pool)
    requires driver.Valid() && Owned(pool.regions, driver.live)
    modifies driver
    ensures driver.Valid() && driver.live == old(driver.live) - freed
    ensures Drained(pool, r, freed, failed)
    ensures freedBytes + r.idleBytes == pool.idleBytes && freedBytes + r.reservedBytes == pool.reservedBytes
    ensures OwnStep(pool.regions, r.regions, old(driver.live), driver.live)
    ensures driver.calls == old(driver.calls) + Offers(pool.blocks, pool.regions, freed)
  {
    hide PoolOk, Ledgers, Coalesced, Live, Draining, Drained, WholeRegions, Owned, OwnStep, RangesApart, Without, Offers;
    r, freedBytes, freed, failed := pool, 0, {}, {};
    var kept := [];
    DrainStart(pool);
    ghost var log: seq<Call> := [];
    OffersNone(pool.blocks, pool.regions);
    for i := 0 to |pool.blocks|
      invariant driver.Valid() && driver.live == old(driver.live) - freed
      invariant driver.calls == old(driver.calls) + log && log == Offers(pool.blocks[..i], pool.regions, freed)
      invariant Draining(pool, r, kept, i, freed, failed)
      invariant r.regions == pool.regions - freed && r.blocks == pool.blocks
      invariant freedBytes + r.idleBytes == pool.idleBytes
      invariant freedBytes + r.reservedBytes == pool.reservedBytes
      invariant freed <= pool.regions.Keys
    {
      var block := pool.blocks[i];
      NextIn(pool, r, kept, i, freed, failed);
      var whole := WholeIdle(block, r.regions);
      var ok := false;
      if whole {
        ok := driver.Free(block.data);
      }
      if ok {
        DrainFree(pool, r, kept, i, freed, failed);
        FreedOffer(pool, i, freed);
        log := log + [Offered(block.region, true)];
        r := r.(regions := r.regions - {block.region},
                idleBytes := r.idleBytes - block.size,
                reservedBytes := r.reservedBytes - block.size);
        freedBytes := freedBytes + block.size;
        freed := freed + {block.region};
        continue;
      }
      DrainKeep(pool, r, kept, i, freed, failed);
      OffersLast(pool.blocks, i, pool.regions, freed);
      log := if whole then log + [Offered(block.region, false)] else log;
      failed := if whole then failed + {block.region} else failed;
      kept := kept + [block];
    }
    DrainEnd(pool, r, kept, freed, failed);
    assert pool.blocks[..|pool.blocks|] == pool.blocks;
    r := r.(blocks := kept);
    DrainOwnStep(pool.regions, freed, old(driver.live));
  }

  lemma OffersNone(bs: seq<Block>, regions: Regions)
    ensures Offers(bs[..0], regions, {}) == []
  {}

  lemma FreedOffer(pool: DevicePool, i: nat, freed: set<nat>)
    requires PoolOk(pool.blocks, pool.regions) && i < |pool.blocks| && WholeIdle(pool.blocks[i], pool.regions)
    ensures Offers(pool.blocks[..i + 1], pool.regions, freed + {pool.blocks[i].region})
         == Offers(pool.blocks[..i], pool.regions, freed) + [Offered(pool.blocks[i].region, true)]
  {
    hide PoolOk, Offers;
    var r := pool.blocks[i].region;
    WholeIsOnly(pool.blocks, i, pool.regions);
    EarlierElsewhere(pool.blocks, i, pool.regions);
    OffersMore(pool.blocks[..i], pool.regions, freed, r);
    OffersLast(pool.blocks, i, pool.regions, freed + {r});
  }

  lemma DrainOwnStep(regions: Regions, freed: set<nat>, live: Regions)
    requires Owned(regions, live) && freed <= regions.Keys
    ensures OwnStep(regions, regions - freed, live, live - freed)
  {}

  // 5% of the device when the driver tells its size, and at least 1 GB.
  function Waterline(total: nat, answered: bool): nat {
    if answered && total / 20 > MIN_IDLE_FLUSH then total / 20 else MIN_IDLE_FLUSH
  }

  // The idle bytes a pool may keep; computed once.
  method IdleFlushThreshold(pool: DevicePool, driver: Driver)
    returns (r: DevicePool, bytes: nat, ghost asked: seq<Call>)
    requires driver.Valid()
    modifies driver
    ensures driver.Valid() && driver.live == old(driver.live) && driver.calls == old(driver.calls) + asked
    ensures r == pool.(flushThreshold := bytes) && bytes > 0
    ensures pool.flushThreshold != 0 ==> r == pool && asked == []
    ensures pool.flushThreshold == 0 ==>
              exists answered :: asked == [Queried(answered)] && bytes == Waterline(driver.total, answered)
  {
    asked := [];
    if pool.flushThreshold != 0 {
      return pool, pool.flushThreshold, asked;
    }
    ghost var answered;
    var total;
    total, answered := driver.MemTotal();
    asked := [Queried(answered)];
    bytes := if total / 20 > MIN_IDLE_FLUSH then total / 20 else MIN_IDLE_FLUSH;
    r := pool.(flushThreshold := bytes);
  }

  // ---------------------------------------------------------------- allocating

  // Bytes the caller has no one else's byte in.
  ghost predicate ApartFromAll(held: set<(nat, nat)>, p: nat, size: nat) {
    forall x :: x in held ==> x.0 + x.1 <= p || p + size <= x.0
  }

  // The request is served from the pool.
  ghost predicate Reused(pool: DevicePool, r: DevicePool, wanted: nat, p: nat) {
    && r == pool.(blocks := r.blocks, idleBytes := r.idleBytes)
    && r.idleBytes + wanted == pool.idleBytes
    && exists i: nat :: IsBest(pool.blocks, wanted, i) && p == pool.blocks[i].data
                        && r.blocks == HandOut(pool.blocks, i, wanted)
  }

  // A new region, holding exactly the block, is added to what is left of the pool.
  ghost predicate Grown(pool: DevicePool, r: DevicePool, freed: set<nat>, wanted: nat, p: nat) {
    && r.blocks == Without(pool.blocks, freed) + [Block(p, wanted, true, p)]
    && r.regions == (pool.regions - freed)[p := wanted]
    && freed <= WholeRegions(pool.blocks, pool.regions)
  }

  lemma ReuseStep(pool: DevicePool, n: nat, i: nat)
    requires PoolValid(pool) && 0 < n <= LARGEST_REQUEST && IsBest(pool.blocks, RoundUp(n), i)
    ensures pool.idleBytes >= RoundUp(n)
    ensures
      var r := pool.(blocks := HandOut(pool.blocks, i, RoundUp(n)), idleBytes := pool.idleBytes - RoundUp(n));
      && PoolValid(r)
      && Live(r.blocks) == Live(pool.blocks) + {(pool.blocks[i].data, RoundUp(n))}
      && ApartFromAll(Live(pool.blocks), pool.blocks[i].data, RoundUp(n))
      && HandOut(pool.blocks, i, RoundUp(n))[i].size == RoundUp(n)
  {
    hide PoolOk, Coalesced, Live, HandOut, Sum;
    RoundUpCovers(n);
    HandOutKeepsOk(pool.blocks, i, n, pool.regions);
    HandOutCoalesced(pool.blocks, i, RoundUp(n), pool.regions);
    HandOutSums(pool.blocks, i, n, pool.regions);
    HandOutLive(pool.blocks, i, n, pool.regions);
    SumUpdate(pool.blocks, i, pool.blocks[i], true);
  }

  lemma GrowStep(pool: DevicePool, live: Regions, p: nat, wanted: nat)
    requires PoolValid(pool) && Owned(pool.regions, live) && Unused(live, p, wanted) && p !in live
    requires wanted > 0 && wanted % ALIGNMENT == 0
    ensures
      var r := pool.(blocks := pool.blocks + [Block(p, wanted, true, p)], regions := pool.regions[p := wanted],
                     reservedBytes := pool.reservedBytes + wanted);
      && PoolValid(r)
      && Live(r.blocks) == Live(pool.blocks) + {(p, wanted)}
      && ApartFromAll(Live(pool.blocks), p, wanted)
  {
    hide PoolOk, Coalesced, Live, Sum;
    var b := Block(p, wanted, true, p);
    GrowKeepsOk(pool.blocks, pool.regions, p, wanted);
    GrowCoalesced(pool.blocks, b);
    SumAppend(pool.blocks, b, true);
    SumAppend(pool.blocks, b, false);
    RegionBytesAdd(pool.regions, p, wanted);
    LiveAppend(pool.blocks, b);
    FreshApart(pool, live, p, wanted);
  }

  lemma FreshApart(pool: DevicePool, live: Regions, p: nat, wanted: nat)
    requires PoolOk(pool.blocks, pool.regions) && Owned(pool.regions, live) && Unused(live, p, wanted)
    ensures ApartFromAll(Live(pool.blocks), p, wanted)
  {
    forall x | x in Live(pool.blocks) ensures x.0 + x.1 <= p || p + wanted <= x.0 {
      var c :| c in pool.blocks && c.busy && x == (c.data, c.size);
      assert Placed(c, pool.regions);
    }
  }

  // What is left of the pool when the driver is asked.
  ghost predicate Remaining(pool: DevicePool, r: DevicePool, freed: set<nat>, live: Regions, live1: Regions) {
    && PoolValid(r) && r.flushThreshold == pool.flushThreshold
    && r.blocks == Without(pool.blocks, freed) && r.regions == pool.regions - freed
    && Live(r.blocks) == Live(pool.blocks)
    && freed <= WholeRegions(pool.blocks, pool.regions)
    && OwnStep(pool.regions, r.regions, live, live1)
  }

  lemma AllRemains(pool: DevicePool, live: Regions)
    requires PoolValid(pool) && Owned(pool.regions, live)
    ensures Remaining(pool, pool, {}, live, live)
    ensures PoolOk(pool.blocks, pool.regions) && Ledgers(pool)
  {
    hide PoolOk, Coalesced, Ledgers, Live, WholeRegions;
    WithoutNothing(pool.blocks);
    assert pool.regions - {} == pool.regions;
  }

  lemma DrainedRemains(pool: DevicePool, r: DevicePool, freed: set<nat>, failed: set<nat>, live: Regions, live1: Regions)
    requires PoolValid(pool) && Drained(pool, r, freed, failed)
    requires OwnStep(pool.regions, r.regions, live, live1)
    ensures Remaining(pool, r, freed, live, live1)
  {
    hide PoolOk, Coalesced, Ledgers, Live, WholeRegions, OwnStep;
  }

  // What the driver was asked: nothing while an idle block fits; otherwise for
  // the block, and if it refused, to take back every wholly idle region and then
  // for the block again.
  ghost predicate AskedFor(pool: DevicePool, wanted: nat, ptr: Option<nat>, freed: set<nat>, log: seq<Call>) {
    if !NoneFits(pool.blocks, wanted) then ptr.Some? && freed == {} && log == []
    else
      || (ptr.Some? && freed == {} && log == [Asked(wanted, true)])
      || log == [Asked(wanted, false)] + Offers(pool.blocks, pool.regions, freed) + [Asked(wanted, ptr.Some?)]
  }

  // The outcome of one request of `wanted` bytes.
  ghost predicate Served(pool: DevicePool, r: DevicePool, wanted: nat, ptr: Option<nat>, freed: set<nat>,
                         live: Regions, live1: Regions, log: seq<Call>) {
    && AskedFor(pool, wanted, ptr, freed, log)
    && PoolValid(r) && r.flushThreshold == pool.flushThreshold
    && OwnStep(pool.regions, r.regions, live, live1)
    && (ptr.None? ==> NoneFits(pool.blocks, wanted) && Live(r.blocks) == Live(pool.blocks)
                      && r.blocks == Without(pool.blocks, freed) && r.regions == pool.regions - freed)
    && (ptr.Some? ==> Live(r.blocks) == Live(pool.blocks) + {(ptr.value, wanted)}
                      && ApartFromAll(Live(pool.blocks), ptr.value, wanted))
    && (ptr.Some? && !NoneFits(pool.blocks, wanted) ==> live1 == live && Reused(pool, r, wanted, ptr.value))
    && (ptr.Some? && NoneFits(pool.blocks, wanted) ==> Grown(pool, r, freed, wanted, ptr.value))
  }

  lemma ServedFromPool(pool: DevicePool, n: nat, i: nat, live: Regions)
    requires PoolValid(pool) && Owned(pool.regions, live) && 0 < n <= LARGEST_REQUEST
    requires IsBest(pool.blocks, RoundUp(n), i)
    ensures i < |pool.blocks| && RoundUp(n) <= pool.blocks[i].size && pool.idleBytes >= RoundUp(n)
    ensures Served(pool,
                   pool.(blocks := HandOut(pool.blocks, i, RoundUp(n)), idleBytes := pool.idleBytes - RoundUp(n)),
                   RoundUp(n), Some(pool.blocks[i].data), {}, live, live, [])
  {
    hide PoolValid, HandOut, Live, Without, ApartFromAll;
    ReuseStep(pool, n, i);
  }

  lemma ServedByDriver(pool: DevicePool, r: DevicePool, freed: set<nat>, n: nat, p: nat,
                       live: Regions, live1: Regions, log: seq<Call>)
    requires PoolValid(pool) && Remaining(pool, r, freed, live, live1) && 0 < n <= LARGEST_REQUEST
    requires NoneFits(pool.blocks, RoundUp(n)) && Unused(live1, p, RoundUp(n)) && p !in live1
    requires AskedFor(pool, RoundUp(n), Some(p), freed, log)
    ensures Served(pool,
                   r.(blocks := r.blocks + [Block(p, RoundUp(n), true, p)], regions := r.regions[p := RoundUp(n)],
                      reservedBytes := r.reservedBytes + RoundUp(n)),
                   RoundUp(n), Some(p), freed, live, live1[p := RoundUp(n)], log)
  {
    hide PoolValid, HandOut, Live, Without, ApartFromAll, NoneFits, WholeRegions, Unused, AskedFor;
    RoundUpCovers(n);
    GrowStep(r, live1, p, RoundUp(n));
  }

  lemma NotServed(pool: DevicePool, r: DevicePool, freed: set<nat>, wanted: nat, live: Regions, live1: Regions,
                  log: seq<Call>)
    requires Remaining(pool, r, freed, live, live1) && NoneFits(pool.blocks, wanted)
    requires AskedFor(pool, wanted, None, freed, log)
    ensures Served(pool, r, wanted, None, freed, live, live1, log)
  {
    hide PoolValid, Live, Without, NoneFits, OwnStep, AskedFor;
  }

  // Best fit first; only when no idle block is large enough is the driver
  // asked, a second time after handing idle regions back.
  method AllocateLocked(pool: DevicePool, byteSize: nat, driver: Driver)
    returns (r: DevicePool, ptr: Option<nat>, ghost freed: set<nat>, ghost log: seq<Call>)
    requires PoolValid(pool) && 0 < byteSize <= LARGEST_REQUEST
    requires driver.Valid() && Owned(pool.regions, driver.live)
    modifies driver
    ensures driver.Valid() && driver.calls == old(driver.calls) + log
    ensures Served(pool, r, RoundUp(byteSize), ptr, freed, old(driver.live), driver.live, log)
  {
    hide PoolValid, PoolOk, Ledgers, NoneFits, IsBest, HandOut, Without, Live, Drained, Remaining, OwnStep, Served,
         Owned, RangesApart, Unused, Offers;
    var wanted := RoundUp(byteSize);
    RoundUpCovers(byteSize);
    freed, log := {}, [];
    var best := BestFit(pool.blocks, wanted);
    if best < |pool.blocks| {
      ServedFromPool(pool, byteSize, best, driver.live);
      r := pool.(blocks := HandOut(pool.blocks, best, wanted), idleBytes := pool.idleBytes - wanted);
      return r, Some(pool.blocks[best].data), {}, [];
    }
    r := pool;
    ghost var live, live1 := driver.live, driver.live;
    AllRemains(pool, live);
    ptr := driver.Malloc(wanted);
    log := [Asked(wanted, ptr.Some?)];
    if ptr.None? {
      ghost var failed: set<nat>;
      var freedBytes;
      r, freedBytes, freed, failed := FreeRegions(pool, driver);
      live1 := driver.live;
      DrainedRemains(pool, r, freed, failed, live, live1);
      ptr := driver.Malloc(wanted);
      log := log + Offers(pool.blocks, pool.regions, freed) + [Asked(wanted, ptr.Some?)];
    }
    if ptr.None? {
      NotServed(pool, r, freed, wanted, live, live1, log);
      return;
    }
    ServedByDriver(pool, r, freed, byteSize, ptr.value, live, live1, log);
    r := r.(blocks := r.blocks + [Block(ptr.value, wanted, true, ptr.value)],
            regions := r.regions[ptr.value := wanted], reservedBytes := r.reservedBytes + wanted);
  }

  // ---------------------------------------------------------------- ledger check

  // Recomputes both ledgers.
  method CheckLedger(pool: DevicePool) returns (ok: bool)
    ensures ok <==> pool.idleBytes == Sum(pool.blocks, true) && pool.reservedBytes == RegionBytes(pool.regions)
  {
    var idle, reserved := 0, 0;
    for i := 0 to |pool.blocks|
      invariant idle == Sum(pool.blocks[..i], true)
    {
      assert pool.blocks[..i + 1][..i] == pool.blocks[..i];
      if !pool.blocks[i].busy {
        idle := idle + pool.blocks[i].size;
      }
    }
    assert pool.blocks[..|pool.blocks|] == pool.blocks;
    var rest := pool.regions;
    while rest != map[]
      invariant reserved + RegionBytes(rest) == RegionBytes(pool.regions)
      decreases rest.Keys
    {
      var base: nat :| base in rest;
      RegionBytesOf(rest, base);
      reserved := reserved + rest[base];
      rest := rest - {base};
    }
    ok := idle == pool.idleBytes && reserved == pool.reservedBytes;
  }
}
