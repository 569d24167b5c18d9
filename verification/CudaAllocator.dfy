/**
 The caching device allocator: one pool per device, all fed by one driver. A
 ghost history of what callers were given and gave back states what holds over
 every run.
 */
module CudaAllocators {
  import opened Wrappers
  import opened PoolBlocks
  import opened DevicePools

  type Pools = map<int, DevicePool>

  // ---------------------------------------------------------------- all pools together

  ghost predicate PoolsOk(pools: Pools, live: Regions) {
    && (forall d :: d in pools ==> PoolValid(pools[d]) && Owned(pools[d].regions, live))
    && (forall d, e :: d in pools && e in pools && d != e ==> pools[d].regions.Keys !! pools[e].regions.Keys)
  }

  // Every (pointer, size) a caller may use.
  ghost function Held(pools: Pools): set<(nat, nat)> {
    set d, x | d in pools && x in Live(pools[d].blocks) :: x
  }

  // Blocks of different pools, or different blocks of one pool, share no byte.
  lemma BlocksApart(pools: Pools, live: Regions, d: int, i: nat, e: int, j: nat)
    requires RangesApart(live) && PoolsOk(pools, live) && d in pools && e in pools
    requires i < |pools[d].blocks| && j < |pools[e].blocks| && (d, i) != (e, j)
    ensures Apart(pools[d].blocks[i], pools[e].blocks[j])
  {
    var b, c := pools[d].blocks[i], pools[e].blocks[j];
    if d != e {
      assert b in pools[d].blocks && Placed(b, pools[d].regions);
      assert c in pools[e].blocks && Placed(c, pools[e].regions);
      assert b.region in pools[d].regions.Keys && c.region in pools[e].regions.Keys;
    }
  }

  predicate RangesDisjoint(x: (nat, nat), y: (nat, nat)) {
    x.0 + x.1 <= y.0 || y.0 + y.1 <= x.0
  }

  // No two callers share a byte, and no one was given nothing.
  lemma HeldApart(pools: Pools, live: Regions)
    requires RangesApart(live) && PoolsOk(pools, live)
    ensures forall x, y :: x in Held(pools) && y in Held(pools) && x != y ==> RangesDisjoint(x, y)
    ensures forall x :: x in Held(pools) ==> x.0 > 0 && x.1 > 0 && x.0 % ALIGNMENT == 0
  {
    hide PoolsOk;
    forall x, y | x in Held(pools) && y in Held(pools) && x != y ensures RangesDisjoint(x, y) {
      var d, i := HeldBy(pools, x);
      var e, j := HeldBy(pools, y);
      BlocksApart(pools, live, d, i, e, j);
    }
    forall x | x in Held(pools) ensures x.0 > 0 && x.1 > 0 && x.0 % ALIGNMENT == 0 {
      var d, i := HeldBy(pools, x);
      BlockPlaced(pools, live, d, i);
    }
  }

  lemma HeldBy(pools: Pools, x: (nat, nat)) returns (d: int, i: nat)
    requires x in Held(pools)
    ensures d in pools && i < |pools[d].blocks| && pools[d].blocks[i].busy
    ensures x == (pools[d].blocks[i].data, pools[d].blocks[i].size)
  {
    d :| d in pools && x in Live(pools[d].blocks);
    var b :| b in pools[d].blocks && b.busy && x == (b.data, b.size);
    i :| 0 <= i < |pools[d].blocks| && pools[d].blocks[i] == b;
  }

  lemma BlockPlaced(pools: Pools, live: Regions, d: int, i: nat)
    requires RangesApart(live) && PoolsOk(pools, live) && d in pools && i < |pools[d].blocks|
    ensures pools[d].blocks[i].data > 0 && pools[d].blocks[i].size > 0
    ensures pools[d].blocks[i].data % ALIGNMENT == 0
    ensures pools[d].blocks[i].region in pools[d].regions
  {
    var b := pools[d].blocks[i];
    assert b in pools[d].blocks && Placed(b, pools[d].regions);
    assert b.region in live;
  }

  // One pool moves on, the others stay.
  lemma PoolStep(pools: Pools, live: Regions, live1: Regions, d: int, p: DevicePool)
    requires PoolsOk(pools, live) && d in pools && PoolValid(p)
    requires OwnStep(pools[d].regions, p.regions, live, live1)
    ensures PoolsOk(pools[d := p], live1)
  {
    hide PoolValid;
    var pools1 := pools[d := p];
    forall e | e in pools1 ensures PoolValid(pools1[e]) && Owned(pools1[e].regions, live1) {
      if e != d {
        assert Owned(pools[e].regions, live);
        forall q: nat | q in pools[e].regions ensures q in live1 && live1[q] == pools[e].regions[q] {
          assert q in pools[e].regions.Keys && q !in pools[d].regions.Keys;
        }
      }
    }
    forall e | e in pools && e != d ensures pools[e].regions.Keys !! p.regions.Keys {
      forall q: nat | q in pools[e].regions.Keys ensures q !in p.regions.Keys {
        assert Owned(pools[e].regions, live);
        assert q !in pools[d].regions.Keys;
      }
    }
  }

  lemma HeldStep(pools: Pools, d: int, p: DevicePool)
    requires d in pools
    ensures Live(p.blocks) == Live(pools[d].blocks) ==> Held(pools[d := p]) == Held(pools)
    ensures forall x :: Live(p.blocks) == Live(pools[d].blocks) + {x} ==> Held(pools[d := p]) == Held(pools) + {x}
  {
    hide Live;
    var pools1 := pools[d := p];
    forall x | Live(p.blocks) == Live(pools[d].blocks) + {x} ensures Held(pools1) == Held(pools) + {x} {
      assert x in Live(pools1[d].blocks);
      HeldWithin(pools, d, p, x);
      forall y | y in Held(pools) ensures y in Held(pools1) {
        var e :| e in pools && y in Live(pools[e].blocks);
        assert y in Live(pools1[e].blocks);
      }
    }
    if Live(p.blocks) == Live(pools[d].blocks) {
      forall e | e in pools ensures Live(pools1[e].blocks) == Live(pools[e].blocks) {}
    }
  }

  lemma HeldWithin(pools: Pools, d: int, p: DevicePool, x: (nat, nat))
    requires d in pools && Live(p.blocks) == Live(pools[d].blocks) + {x}
    ensures Held(pools[d := p]) <= Held(pools) + {x}
  {
    hide Live;
    var pools1 := pools[d := p];
    forall y | y in Held(pools1) ensures y == x || y in Held(pools) {
      var e :| e in pools1 && y in Live(pools1[e].blocks);
      if y != x {
        assert y in Live(pools[e].blocks);
      }
    }
  }

  lemma AddEmptyPool(pools: Pools, live: Regions, d: int)
    requires PoolsOk(pools, live) && d !in pools
    ensures PoolsOk(pools[d := EmptyPool], live)
    ensures Held(pools[d := EmptyPool]) == Held(pools)
  {
    hide PoolValid, Live;
    EmptyPoolValid();
    var pools1 := pools[d := EmptyPool];
    forall x | x in Held(pools1) ensures x in Held(pools) {
      var e :| e in pools1 && x in Live(pools1[e].blocks);
      assert x in Live(pools[e].blocks);
    }
    forall x | x in Held(pools) ensures x in Held(pools1) {
      var e :| e in pools && x in Live(pools[e].blocks);
      assert x in Live(pools1[e].blocks);
    }
  }

  // A pointer given out by a new block cannot have been held before.
  lemma NewIsApart(pools: Pools, live: Regions, x: (nat, nat), held: set<(nat, nat)>)
    requires RangesApart(live) && PoolsOk(pools, live) && Held(pools) == held + {x} && x !in held
    ensures ApartFromAll(held, x.0, x.1)
  {
    hide PoolsOk, Held;
    HeldApart(pools, live);
    forall y | y in held ensures y.0 + y.1 <= x.0 || x.0 + x.1 <= y.0 {
      assert RangesDisjoint(x, y);
    }
  }

  // The new pointer lies in a region of its own pool, the others do not.
  lemma NewNotHeld(pools: Pools, live: Regions, live1: Regions, d: int, p: DevicePool, x: (nat, nat))
    requires PoolsOk(pools, live) && d in pools && PoolsOk(pools[d := p], live1) && RangesApart(live1)
    requires x.1 > 0 && ApartFromAll(Live(pools[d].blocks), x.0, x.1)
    requires Live(p.blocks) == Live(pools[d].blocks) + {x}
    ensures x !in Held(pools)
  {
    hide PoolsOk, Live;
    var pools1 := pools[d := p];
    if x in Held(pools) {
      var e, j := HeldBy(pools, x);
      assert x in Live(pools[e].blocks) by {
        InLive(pools[e].blocks, j);
      }
      var i := LiveAt(p.blocks, x);
      if e != d {
        BlocksApart(pools1, live1, d, i, e, j);
      }
      assert false;
    }
  }

  lemma InLive(bs: seq<Block>, j: nat)
    requires j < |bs| && bs[j].busy
    ensures (bs[j].data, bs[j].size) in Live(bs)
  {
    assert bs[j] in bs;
  }

  lemma LiveAt(bs: seq<Block>, x: (nat, nat)) returns (i: nat)
    requires x in Live(bs)
    ensures i < |bs| && bs[i].busy && x == (bs[i].data, bs[i].size)
  {
    var b :| b in bs && b.busy && x == (b.data, b.size);
    i :| 0 <= i < |bs| && bs[i] == b;
  }

  // ---------------------------------------------------------------- runs

  datatype Event = Granted(p: nat, asked: nat, size: nat) | Returned(p: nat)

  // What callers hold after a history of grants and returns.
  ghost function Holding(history: seq<Event>): set<(nat, nat)> {
    if history == [] then {}
    else
      var before := Holding(history[..|history| - 1]);
      match history[|history| - 1]
      case Granted(p, _, size) => before + {(p, size)}
      case Returned(p) => set x | x in before && x.0 != p
  }

  // Every grant covered its request and met nothing held at that moment.
  ghost predicate Sound(history: seq<Event>) {
    forall k :: 0 <= k < |history| && history[k].Granted? ==> GrantSound(history, k)
  }

  ghost predicate GrantSound(history: seq<Event>, k: nat)
    requires k < |history| && history[k].Granted?
  {
    && history[k].p > 0 && history[k].p % ALIGNMENT == 0 && history[k].size >= history[k].asked > 0
    && history[k].size < history[k].asked + ALIGNMENT
    && ApartFromAll(Holding(history[..k]), history[k].p, history[k].size)
  }

  lemma SoundGrows(history: seq<Event>, e: Event)
    requires Sound(history)
    requires e.Granted? ==> GrantSound(history + [e], |history|)
    ensures Sound(history + [e])
  {
    var h := history + [e];
    forall k | 0 <= k < |h| && h[k].Granted? ensures GrantSound(h, k) {
      if k < |history| {
        assert h[..k] == history[..k];
        assert GrantSound(history, k);
      }
    }
  }

  lemma {:induction false} StillHeld(history: seq<Event>, i: nat, j: nat)
    requires i < j <= |history| && history[i].Granted?
    requires forall k :: i < k < j ==> history[k] != Returned(history[i].p)
    ensures (history[i].p, history[i].size) in Holding(history[..j])
    decreases j
  {
    assert history[..j][..j - 1] == history[..j - 1];
    if j > i + 1 {
      StillHeld(history, i, j - 1);
    }
  }

  // In every run: a range that has not been given back is never given to
  // anyone else, not even in part.
  lemma NeverAliased(history: seq<Event>, i: nat, j: nat)
    requires Sound(history) && i < j < |history| && history[i].Granted? && history[j].Granted?
    requires forall k :: i < k < j ==> history[k] != Returned(history[i].p)
    ensures RangesDisjoint((history[i].p, history[i].size), (history[j].p, history[j].size))
  {
    StillHeld(history, i, j);
    assert GrantSound(history, j);
  }

  lemma UsePool(pools: Pools, live: Regions, d: int)
    requires PoolsOk(pools, live) && d in pools
    ensures PoolValid(pools[d]) && Owned(pools[d].regions, live)
    ensures PoolOk(pools[d].blocks, pools[d].regions) && Ledgers(pools[d])
  {}

  // A request served in pool d keeps all pools apart and adds to what is held.
  lemma ServedStep(pools: Pools, live: Regions, live1: Regions, d: int, p: DevicePool, wanted: nat,
                   ptr: Option<nat>, freed: set<nat>, log: seq<Call>)
    requires PoolsOk(pools, live) && RangesApart(live1) && d in pools && wanted > 0
    requires Served(pools[d], p, wanted, ptr, freed, live, live1, log)
    ensures PoolsOk(pools[d := p], live1)
    ensures ptr.None? ==> Held(pools[d := p]) == Held(pools)
    ensures ptr.Some? ==> Held(pools[d := p]) == Held(pools) + {(ptr.value, wanted)}
    ensures ptr.Some? ==> ApartFromAll(Held(pools), ptr.value, wanted)
    ensures ptr.Some? ==> ptr.value > 0 && ptr.value % ALIGNMENT == 0
  {
    hide PoolsOk, Held, Live, PoolValid, OwnStep, NoneFits, RangesApart, Reused, Grown, ApartFromAll, AskedFor;
    PoolStep(pools, live, live1, d, p);
    HeldStep(pools, d, p);
    if ptr.Some? {
      var x := (ptr.value, wanted);
      NewNotHeld(pools, live, live1, d, p, x);
      NewIsApart(pools[d := p], live1, x, Held(pools));
      HeldApart(pools[d := p], live1);
      assert x in Held(pools[d := p]);
    }
  }

  lemma GrantStep(history: seq<Event>, p: nat, asked: nat)
    requires Sound(history) && 0 < asked <= LARGEST_REQUEST && p > 0 && p % ALIGNMENT == 0
    requires ApartFromAll(Holding(history), p, RoundUp(asked))
    ensures Sound(history + [Granted(p, asked, RoundUp(asked))])
    ensures Holding(history + [Granted(p, asked, RoundUp(asked))]) == Holding(history) + {(p, RoundUp(asked))}
  {
    var e := Granted(p, asked, RoundUp(asked));
    RoundUpCovers(asked);
    assert (history + [e])[..|history|] == history;
    hide ApartFromAll;
    SoundGrows(history, e);
  }

  lemma ReturnStep(history: seq<Event>, p: nat)
    requires Sound(history)
    ensures Sound(history + [Returned(p)])
    ensures Holding(history + [Returned(p)]) == set x | x in Holding(history) && x.0 != p
  {
    assert (history + [Returned(p)])[..|history|] == history;
    SoundGrows(history, Returned(p));
  }

  ghost predicate StartsBlock(pool: DevicePool, ptr: nat) {
    exists b :: b in pool.blocks && b.data == ptr
  }

  ghost predicate Known(pools: Pools, ptr: nat) {
    exists d :: d in pools && StartsBlock(pools[d], ptr)
  }

  // In one pool, what started at ptr is no longer held; the others are the same.
  ghost predicate TakenBack(pools: Pools, mid: Pools, ptr: nat) {
    exists d :: d in pools && d in mid && StartsBlock(pools[d], ptr) && mid == pools[d := mid[d]]
      && PoolValid(mid[d]) && mid[d].regions == pools[d].regions
      && mid[d].flushThreshold == pools[d].flushThreshold && mid[d].reservedBytes == pools[d].reservedBytes
      && Live(mid[d].blocks) == (set x | x in Live(pools[d].blocks) && x.0 != ptr)
      && (Live(mid[d].blocks) == Live(pools[d].blocks) ==> mid[d] == pools[d])
      && (forall x :: x in Live(pools[d].blocks) && x.0 == ptr ==> mid[d].idleBytes == pools[d].idleBytes + x.1)
  }

  lemma StartsBlockIs(pool: DevicePool, ptr: nat)
    ensures StartsBlock(pool, ptr) <==> exists b :: b in pool.blocks && b.data == ptr
  {}

  // A block given back in pool d is held in no other pool.
  lemma ReleasedStep(pools: Pools, live: Regions, d: int, p: DevicePool, ptr: nat)
    requires PoolsOk(pools, live) && RangesApart(live) && d in pools && PoolValid(p)
    requires p.regions == pools[d].regions && StartsBlock(pools[d], ptr)
    requires Live(p.blocks) == set x | x in Live(pools[d].blocks) && x.0 != ptr
    ensures PoolsOk(pools[d := p], live)
    ensures Held(pools[d := p]) == set x | x in Held(pools) && x.0 != ptr
  {
    hide PoolsOk, Live, PoolValid, RangesApart;
    var pools1 := pools[d := p];
    UsePool(pools, live, d);
    PoolStep(pools, live, live, d, p);
    var b :| b in pools[d].blocks && b.data == ptr;
    var i: nat :| i < |pools[d].blocks| && pools[d].blocks[i] == b;
    forall x | x in Held(pools) && x.0 == ptr ensures x in Live(pools[d].blocks) && x !in Held(pools1) {
      var e, j := HeldBy(pools, x);
      OnlyOneStart(pools, live, d, i, e, j);
      InLive(pools[e].blocks, j);
      if x in Held(pools1) {
        var g, k := HeldBy(pools1, x);
        InLive(pools1[g].blocks, k);
        if g != d {
          OnlyOneStart(pools, live, d, i, g, k);
        }
        assert false;
      }
    }
    forall x | x in Held(pools) && x.0 != ptr ensures x in Held(pools1) {
      var e :| e in pools && x in Live(pools[e].blocks);
      assert x in Live(pools1[e].blocks);
    }
    forall x | x in Held(pools1) ensures x in Held(pools) && x.0 != ptr {
      var e :| e in pools1 && x in Live(pools1[e].blocks);
      assert x in Live(pools[e].blocks);
    }
  }

  lemma OnlyOneStart(pools: Pools, live: Regions, d: int, i: nat, e: int, j: nat)
    requires PoolsOk(pools, live) && RangesApart(live) && d in pools && e in pools
    requires i < |pools[d].blocks| && j < |pools[e].blocks|
    requires pools[d].blocks[i].data == pools[e].blocks[j].data
    ensures d == e && i == j
  {
    hide PoolsOk;
    BlockPlaced(pools, live, d, i);
    BlockPlaced(pools, live, e, j);
    if (d, i) != (e, j) {
      BlocksApart(pools, live, d, i, e, j);
    }
  }

  // A pointer no pool knows is not one the pools own.
  lemma UnknownStep(pools: Pools, live: Regions, live1: Regions, ptr: nat)
    requires PoolsOk(pools, live) && RangesApart(live)
    requires forall d :: d in pools ==> !StartsBlock(pools[d], ptr)
    requires live1 == live || live1 == live - {ptr}
    ensures PoolsOk(pools, live1)
    ensures Held(pools) == set x | x in Held(pools) && x.0 != ptr
  {
    hide PoolValid, Ledgers, Live;
    forall d | d in pools ensures PoolValid(pools[d]) && Owned(pools[d].regions, live1) {
      UsePool(pools, live, d);
      if ptr in pools[d].regions {
        RegionStartsABlock(pools[d].blocks, pools[d].regions, ptr);
      }
    }
    forall x | x in Held(pools) ensures x.0 != ptr {
      var d, i := HeldBy(pools, x);
      assert pools[d].blocks[i] in pools[d].blocks;
    }
  }

  // ---------------------------------------------------------------- flushing

  // What the driver was offered of this pool, and what it answered: every wholly
  // idle region, and no other; those in `freed` were accepted.
  ghost predicate Answers(pool: DevicePool, freed: set<nat>, log: seq<Call>) {
    && (forall base :: base in WholeRegions(pool.blocks, pool.regions) ==> Offered(base, base in freed) in log)
    && (forall c :: c in log && c.Offered? && c.base in pool.regions ==>
          c.base in WholeRegions(pool.blocks, pool.regions) && c.accepted == (c.base in freed))
  }

  // The pool is left without exactly the idle regions the driver accepted.
  ghost predicate Flushed(pool: DevicePool, r: DevicePool, log: seq<Call>) {
    exists freed :: Drained(pool, r, freed, WholeRegions(pool.blocks, pool.regions) - freed)
                    && Answers(pool, freed, log)
  }

  // The driver was offered nothing of this pool.
  ghost predicate Untouched(pool: DevicePool, log: seq<Call>) {
    forall c :: c in log && c.Offered? ==> c.base !in pool.regions
  }

  // The threshold of a pool is asked for once.
  ghost predicate Thresholded(pool: DevicePool, bytes: nat, total: nat, log: seq<Call>) {
    if pool.flushThreshold != 0 then bytes == pool.flushThreshold
    else exists answered :: Queried(answered) in log && bytes == Waterline(total, answered)
  }

  // A pool over its waterline is flushed, one that is not is left alone.
  ghost predicate FlushStep(pool: DevicePool, r: DevicePool, total: nat, log: seq<Call>) {
    && Thresholded(pool, r.flushThreshold, total, log)
    && (if pool.idleBytes <= r.flushThreshold
        then r == pool.(flushThreshold := r.flushThreshold) && Untouched(pool, log)
        else Flushed(pool.(flushThreshold := r.flushThreshold), r, log))
  }

  // Nothing is offered that no pool owns, and nothing is asked for.
  ghost predicate OnlyOffers(pools: Pools, log: seq<Call>) {
    forall c :: c in log ==> !c.Asked? && (c.Offered? ==> exists d :: d in pools && c.base in pools[d].regions)
  }

  // After a flush, a region is left if and only if something in it is held or
  // the driver refused it in this very call.
  lemma FlushedFreesIdle(pool: DevicePool, r: DevicePool, log: seq<Call>, base: nat)
    requires PoolValid(pool) && Flushed(pool, r, log) && base in pool.regions && pool.regions[base] > 0
    ensures base in r.regions <==>
              base in Refused(log) || exists b :: b in pool.blocks && b.region == base && b.busy
    ensures base in r.regions ==> r.regions[base] == pool.regions[base]
    ensures WholeRegions(r.blocks, r.regions) <= Refused(log)
  {
    hide PoolOk, Ledgers, Live, Without;
    var whole := WholeRegions(pool.blocks, pool.regions);
    var freed :| Drained(pool, r, freed, whole - freed) && Answers(pool, freed, log);
    IdleRegionIsWhole(pool.blocks, pool.regions, base);
    assert base in whole <==> exists b :: b in pool.blocks && b.region == base && WholeIdle(b, pool.regions);
    forall q | q in whole - freed ensures q in Refused(log) {
      assert Offered(q, false) in log;
    }
  }

  // The pool is at or under its waterline, or the driver refused what is left.
  ghost predicate UnderWaterline(pool: DevicePool, log: seq<Call>) {
    || pool.idleBytes <= pool.flushThreshold
    || WholeRegions(pool.blocks, pool.regions) <= Refused(log)
  }

  // With a driver that takes what it is offered, a pool ends at or under its
  // waterline or with no wholly idle region.
  lemma FlushStepUnder(pool: DevicePool, r: DevicePool, total: nat, log: seq<Call>)
    requires FlushStep(pool, r, total, log)
    ensures UnderWaterline(r, log)
    ensures Refused(log) == {} ==> r.idleBytes <= r.flushThreshold || WholeRegions(r.blocks, r.regions) == {}
  {
    hide PoolOk, Ledgers, Live, Without, Thresholded;
    if pool.idleBytes > r.flushThreshold {
      var p := pool.(flushThreshold := r.flushThreshold);
      var whole := WholeRegions(p.blocks, p.regions);
      var freed :| Drained(p, r, freed, whole - freed) && Answers(p, freed, log);
      forall q | q in whole - freed ensures q in Refused(log) {
        assert Offered(q, false) in log;
      }
    }
  }

  // A waterline is at least 1 GB, and above that a twentieth of the device; 0
  // stands for one that has not been worked out.
  predicate IsWaterline(bytes: nat, total: nat) {
    bytes == 0 || bytes == 0x4000_0000 || (bytes > 0x4000_0000 && bytes * 20 <= total < bytes * 20 + 20)
  }

  // What a pool keeps idle after a flush without a refusal: at most 1 GB or a
  // twentieth of the device, unless every region holds something. Up to 1 GB
  // nothing is offered at all.
  lemma IdleKept(pool: DevicePool, r: DevicePool, total: nat, log: seq<Call>)
    requires FlushStep(pool, r, total, log) && IsWaterline(pool.flushThreshold, total)
    ensures IsWaterline(r.flushThreshold, total) && r.flushThreshold > 0
    ensures Refused(log) == {} ==>
              r.idleBytes <= 0x4000_0000 || r.idleBytes * 20 <= total || WholeRegions(r.blocks, r.regions) == {}
    ensures pool.idleBytes <= 0x4000_0000 ==>
              r == pool.(flushThreshold := r.flushThreshold) && Untouched(pool, log)
    ensures pool.flushThreshold == 0 && Queried(true) !in log ==> r.flushThreshold == 0x4000_0000
    ensures pool.flushThreshold == 0 && Queried(false) !in log && total >= 20 * 0x4000_0000 ==>
              r.flushThreshold * 20 <= total < r.flushThreshold * 20 + 20
  {
    hide PoolOk, Ledgers, Live, Without, Flushed;
    FlushStepUnder(pool, r, total, log);
    if pool.flushThreshold == 0 {
      var answered :| Queried(answered) in log && r.flushThreshold == Waterline(total, answered);
      assert total / 20 * 20 <= total < total / 20 * 20 + 20;
    }
  }

  // ---------------------------------------------------------------- one pool of the flush

  lemma OffersAnswer(pool: DevicePool, r: DevicePool, freed: set<nat>, failed: set<nat>, log: seq<Call>)
    requires Drained(pool, r, freed, failed) && Untouched(pool, log)
    ensures Flushed(pool, r, log + Offers(pool.blocks, pool.regions, freed))
  {
    hide PoolOk, Ledgers, Live, Without, Offers;
    OffersAre(pool.blocks, pool.regions, freed);
    assert failed == WholeRegions(pool.blocks, pool.regions) - freed;
    var more := Offers(pool.blocks, pool.regions, freed);
    forall c | c in log + more && c.Offered? && c.base in pool.regions
      ensures c.base in WholeRegions(pool.blocks, pool.regions) && c.accepted == (c.base in freed)
    {
      assert c in more;
    }
    assert Answers(pool, freed, log + more);
  }

  lemma FlushedStays(pool: DevicePool, r: DevicePool, log: seq<Call>, more: seq<Call>)
    requires Flushed(pool, r, log) && Untouched(pool, more)
    ensures Flushed(pool, r, log + more)
  {
    hide Drained, WholeRegions;
    var freed :| Drained(pool, r, freed, WholeRegions(pool.blocks, pool.regions) - freed) && Answers(pool, freed, log);
    assert Answers(pool, freed, log + more);
  }

  lemma FlushStepStays(pool: DevicePool, r: DevicePool, total: nat, log: seq<Call>, more: seq<Call>)
    requires FlushStep(pool, r, total, log) && Untouched(pool, more)
    ensures FlushStep(pool, r, total, log + more)
  {
    hide Flushed;
    if pool.idleBytes > r.flushThreshold {
      FlushedStays(pool.(flushThreshold := r.flushThreshold), r, log, more);
    }
  }

  // Offers of one pool's regions are offers of no other pool's.
  lemma OffersElsewhere(pools: Pools, live: Regions, d: int, e: int, freed: set<nat>)
    requires PoolsOk(pools, live) && d in pools && e in pools && d != e
    ensures Untouched(pools[e], Offers(pools[d].blocks, pools[d].regions, freed))
  {
    hide PoolValid, Offers;
    OffersAre(pools[d].blocks, pools[d].regions, freed);
    forall c | c in Offers(pools[d].blocks, pools[d].regions, freed) && c.Offered? ensures c.base !in pools[e].regions {
      assert c.base in pools[d].regions.Keys;
    }
  }

  lemma OffersKnown(pools: Pools, d: int, freed: set<nat>, log: seq<Call>)
    requires d in pools && OnlyOffers(pools, log)
    ensures OnlyOffers(pools, log + Offers(pools[d].blocks, pools[d].regions, freed))
  {
    hide Offers;
    OffersAre(pools[d].blocks, pools[d].regions, freed);
  }

  // How far a flush has come: the pools in `todo` are as they were.
  ghost predicate Flushing(pools0: Pools, pools: Pools, todo: set<int>, total: nat, log: seq<Call>) {
    && pools.Keys == pools0.Keys && todo <= pools.Keys && OnlyOffers(pools0, log)
    && (forall d :: d in todo ==> pools[d] == pools0[d] && Untouched(pools0[d], log))
    && (forall d :: d in pools && d !in todo ==> FlushStep(pools0[d], pools[d], total, log))
  }

  lemma FlushingStays(pools0: Pools, live: Regions, pools: Pools, todo: set<int>, total: nat, log: seq<Call>,
                      d: int, p: DevicePool, asked: seq<Call>, freed: set<nat>, offered: bool)
    requires PoolsOk(pools0, live) && Flushing(pools0, pools, todo, total, log) && d in todo
    requires Thresholded(pools0[d], p.flushThreshold, total, asked) && forall c :: c in asked ==> c.Queried?
    requires !offered ==> pools0[d].idleBytes <= p.flushThreshold && p == pools0[d].(flushThreshold := p.flushThreshold)
    requires offered ==> pools0[d].idleBytes > p.flushThreshold
                         && Drained(pools0[d].(flushThreshold := p.flushThreshold), p, freed,
                                    WholeRegions(pools0[d].blocks, pools0[d].regions) - freed)
    ensures Flushing(pools0, pools[d := p], todo - {d}, total,
                     log + asked + if offered then Offers(pools0[d].blocks, pools0[d].regions, freed) else [])
  {
    hide PoolsOk, Drained, Offers, FlushStep, OnlyOffers, Flushed, WholeRegions, Thresholded;
    var more := if offered then Offers(pools0[d].blocks, pools0[d].regions, freed) else [];
    var log1 := log + asked;
    QueriesKnown(pools0, log, asked);
    if offered {
      OffersKnown(pools0, d, freed, log1);
    } else {
      assert log1 + more == log1;
    }
    forall e | e in pools && e != d ensures Untouched(pools0[e], asked) && Untouched(pools0[e], more) {
      if offered {
        OffersElsewhere(pools0, live, d, e, freed);
      }
    }
    forall e | e in pools && e !in todo ensures FlushStep(pools0[e], pools[e], total, log1 + more) {
      FlushStepStays(pools0[e], pools[e], total, log, asked);
      FlushStepStays(pools0[e], pools[e], total, log1, more);
    }
    FlushOne(pools0[d], p, total, log, asked, freed, offered);
  }

  lemma QueriesKnown(pools: Pools, log: seq<Call>, asked: seq<Call>)
    requires OnlyOffers(pools, log) && forall c :: c in asked ==> c.Queried?
    ensures OnlyOffers(pools, log + asked)
  {}

  lemma FlushOne(pool: DevicePool, p: DevicePool, total: nat, log: seq<Call>, asked: seq<Call>, freed: set<nat>, offered: bool)
    requires Untouched(pool, log)
    requires Thresholded(pool, p.flushThreshold, total, asked) && forall c :: c in asked ==> c.Queried?
    requires !offered ==> pool.idleBytes <= p.flushThreshold && p == pool.(flushThreshold := p.flushThreshold)
    requires offered ==> pool.idleBytes > p.flushThreshold
                         && Drained(pool.(flushThreshold := p.flushThreshold), p, freed,
                                    WholeRegions(pool.blocks, pool.regions) - freed)
    ensures FlushStep(pool, p, total, log + asked + if offered then Offers(pool.blocks, pool.regions, freed) else [])
  {
    hide Drained, Offers, Flushed, WholeRegions;
    var q := pool.(flushThreshold := p.flushThreshold);
    if offered {
      OffersAnswer(q, p, freed, WholeRegions(pool.blocks, pool.regions) - freed, log + asked);
    }
  }

  lemma DrainStep(pools: Pools, live: Regions, live1: Regions, d: int, p: DevicePool, freed: set<nat>, failed: set<nat>)
    requires PoolsOk(pools, live) && d in pools
    requires Drained(pools[d], p, freed, failed) && OwnStep(pools[d].regions, p.regions, live, live1)
    ensures PoolsOk(pools[d := p], live1)
    ensures Held(pools[d := p]) == Held(pools)
    ensures failed == WholeRegions(pools[d].blocks, pools[d].regions) - freed
  {
    hide PoolsOk, Held, Live, Ledgers, PoolOk, Coalesced, OwnStep, WholeRegions;
    UsePool(pools, live, d);
    DrainedRemains(pools[d], p, freed, failed, live, live1);
    PoolStep(pools, live, live1, d, p);
    HeldStep(pools, d, p);
  }

  lemma ThresholdStep(pools: Pools, live: Regions, d: int, bytes: nat)
    requires PoolsOk(pools, live) && d in pools
    ensures PoolsOk(pools[d := pools[d].(flushThreshold := bytes)], live)
    ensures Held(pools[d := pools[d].(flushThreshold := bytes)]) == Held(pools)
  {
    hide PoolsOk, Held, Live, PoolOk, Coalesced;
    UsePool(pools, live, d);
    PoolStep(pools, live, live, d, pools[d].(flushThreshold := bytes));
    HeldStep(pools, d, pools[d].(flushThreshold := bytes));
  }

  // ---------------------------------------------------------------- the allocator

  datatype DeviceStats = DeviceStats(reserved: nat, busy: nat, idle: nat, blocks: nat, regions: nat)

  class CudaAllocator {
    const driver: Driver
    var pools: Pools
    ghost var history: seq<Event>

    ghost predicate Valid()
      reads this, driver
    {
      && driver.Valid() && PoolsOk(pools, driver.live)
      && Held(pools) == Holding(history) && Sound(history)
    }

    constructor (driver: Driver)
      requires driver.Valid()
      ensures Valid() && this.driver == driver && pools == map[] && history == []
    {
      this.driver := driver;
      pools := map[];
      history := [];
    }

    // A block of at least byteSize bytes on the given device; None stands for
    // the null pointer.
    method Allocate(device: int, byteSize: nat)
      returns (ptr: Option<nat>, ghost freed: set<nat>, ghost log: seq<Call>)
      requires Valid() && byteSize <= LARGEST_REQUEST
      modifies this, driver
      ensures Valid()
      ensures driver.calls == old(driver.calls) + log
      ensures byteSize == 0 ==> ptr.None? && pools == old(pools) && driver.live == old(driver.live) && log == []
      ensures ptr.None? ==> history == old(history)
      ensures ptr.Some? ==> history == old(history) + [Granted(ptr.value, byteSize, RoundUp(byteSize))]
      ensures forall e :: e in old(pools) && e != device ==> e in pools && pools[e] == old(pools)[e]
      ensures byteSize > 0 ==>
                device in pools
                && var pool := if device in old(pools) then old(pools)[device] else EmptyPool;
                   Served(pool, pools[device], RoundUp(byteSize), ptr, freed, old(driver.live), driver.live, log)
    {
      hide PoolsOk, Held, Holding, Sound, Served;
      if byteSize == 0 {
        return None, {}, [];
      }
      if device !in pools {
        AddEmptyPool(pools, driver.live, device);
        pools := pools[device := EmptyPool];
      }
      RoundUpCovers(byteSize);
      ghost var live, pools0 := driver.live, pools;
      UsePool(pools, driver.live, device);
      var pool;
      pool, ptr, freed, log := AllocateLocked(pools[device], byteSize, driver);
      ServedStep(pools0, live, driver.live, device, pool, RoundUp(byteSize), ptr, freed, log);
      pools := pools[device := pool];
      if ptr.Some? {
        GrantStep(history, ptr.value, byteSize);
        history := history + [Granted(ptr.value, byteSize, RoundUp(byteSize))];
      }
    }

    // Takes back what starts at ptr, whichever device it is on, and returns
    // idle memory above the waterline to the driver. A pointer that is already
    // idle changes no pool before the flush; an unknown one goes to the driver.
    // `mid` is the state between the two parts, `log` what the driver was asked.
    method Release(ptr: nat) returns (ghost mid: Pools, ghost log: seq<Call>)
      requires Valid()
      modifies this, driver
      ensures Valid() && driver.calls == old(driver.calls) + log
      ensures history == if ptr == 0 then old(history) else old(history) + [Returned(ptr)]
      ensures ptr == 0 ==> mid == pools == old(pools) && log == []
      ensures ptr != 0 && !Known(old(pools), ptr) ==>
                mid == pools == old(pools) && exists ok :: log == [Offered(ptr, ok)]
      ensures ptr != 0 && Known(old(pools), ptr) ==>
                TakenBack(old(pools), mid, ptr) && Flushing(mid, pools, {}, driver.total, log)
    {
      hide PoolsOk, Held, Holding, Sound, PoolValid, Live, StartsBlock, RangesApart, Flushing;
      mid, log := pools, [];
      if ptr == 0 {
        return;
      }
      ReturnStep(history, ptr);
      history := history + [Returned(ptr)];
      var todo := pools.Keys;
      while todo != {}
        invariant todo <= pools.Keys && driver.Valid()
        invariant pools == old(pools) && driver.live == old(driver.live) && driver.calls == old(driver.calls)
        invariant history == old(history) + [Returned(ptr)]
        invariant forall d :: d in pools && d !in todo ==> !StartsBlock(pools[d], ptr)
      {
        SomeIn(todo);
        var d :| d in todo;
        UsePool(pools, driver.live, d);
        var pool, found := ReleaseLocked(pools[d], ptr);
        StartsBlockIs(pools[d], ptr);
        if found {
          ReleasedStep(pools, driver.live, d, pool, ptr);
          pools := pools[d := pool];
          mid := pools;
          log := FlushOverWaterline();
          return;
        }
        todo := todo - {d};
      }
      var ok := driver.Free(ptr);
      log := [Offered(ptr, ok)];
      UnknownStep(pools, old(driver.live), driver.live, ptr);
    }

    // Every pool over its waterline is flushed, and no other.
    method FlushOverWaterline() returns (ghost log: seq<Call>)
      requires Valid()
      modifies this, driver
      ensures Valid() && history == old(history) && driver.calls == old(driver.calls) + log
      ensures Flushing(old(pools), pools, {}, driver.total, log)
    {
      hide PoolsOk, Held, Holding, Sound, PoolValid, PoolOk, Ledgers, Live, Drained, OwnStep, Owned, WholeRegions,
           RangesApart, Flushing, Offers, Thresholded;
      log := [];
      ghost var pools0, live0, calls0 := pools, driver.live, driver.calls;
      var todo := pools.Keys;
      FlushingStarts(pools, driver.total);
      while todo != {}
        invariant todo <= pools.Keys
        invariant Valid() && history == old(history) && driver.calls == calls0 + log
        invariant Flushing(pools0, pools, todo, driver.total, log)
      {
        SomeIn(todo);
        var d :| d in todo;
        FlushingTodo(pools0, pools, todo, driver.total, log, d);
        ghost var asked: seq<Call>;
        var pool, bytes;
        pool, bytes, asked := IdleFlushThreshold(pools[d], driver);
        IsThresholded(pools0[d], bytes, driver.total, asked);
        ThresholdStep(pools, driver.live, d, bytes);
        ghost var before := pools;
        pools := pools[d := pool];
        if pool.idleBytes <= bytes {
          FlushingStays(pools0, live0, before, todo, driver.total, log, d, pool, asked, {}, false);
          log := log + asked + [];
          todo := todo - {d};
          continue;
        }
        UsePool(pools, driver.live, d);
        ghost var live, freed, failed1 := driver.live, {}, {};
        var freedBytes;
        pool, freedBytes, freed, failed1 := FreeRegions(pools[d], driver);
        DrainStep(pools, live, driver.live, d, pool, freed, failed1);
        assert pool.flushThreshold == bytes by {
          DrainedThreshold(pools[d], pool, freed, failed1);
        }
        FlushingStays(pools0, live0, before, todo, driver.total, log, d, pool, asked, freed, true);
        log := log + asked + Offers(pools0[d].blocks, pools0[d].regions, freed);
        assert before[d := pools[d]][d := pool] == before[d := pool];
        pools := pools[d := pool];
        todo := todo - {d};
      }
    }

    // Returns every region in which nothing is held.
    method FreeIdle() returns (ghost log: seq<Call>)
      requires Valid()
      modifies this, driver
      ensures Valid() && history == old(history) && driver.calls == old(driver.calls) + log
      ensures pools.Keys == old(pools).Keys && OnlyOffers(old(pools), log)
      ensures forall d :: d in pools ==> Flushed(old(pools)[d], pools[d], log)
    {
      hide PoolsOk, Held, Holding, Sound, PoolOk, Ledgers, Live, Drained, OwnStep, Owned, WholeRegions, RangesApart,
           Flushed, Coalesced, SameHoldings, Offers, OnlyOffers, Untouched;
      log := [];
      ghost var pools0, live0, calls0 := pools, driver.live, driver.calls;
      var todo := pools.Keys;
      NothingOffered(pools);
      while todo != {}
        invariant todo <= pools.Keys == pools0.Keys
        invariant Valid() && history == old(history) && driver.calls == calls0 + log && OnlyOffers(pools0, log)
        invariant forall d :: d in todo ==> pools[d] == pools0[d] && Untouched(pools0[d], log)
        invariant forall d :: d in pools && d !in todo ==> Flushed(pools0[d], pools[d], log)
      {
        SomeIn(todo);
        var d :| d in todo;
        UsePool(pools, driver.live, d);
        var merged := MergeAllIdle(pools[d]);
        ghost var live, freed, failed1 := driver.live, {}, {};
        var pool, freedBytes;
        pool, freedBytes, freed, failed1 := FreeRegions(merged, driver);
        DrainStep(pools, live, driver.live, d, pool, freed, failed1);
        OffersAnswer(pools[d], pool, freed, failed1, log);
        OffersKnown(pools0, d, freed, log);
        FlushedAll(pools0, live0, pools, d, todo, log, freed);
        log := log + Offers(pools0[d].blocks, pools0[d].regions, freed);
        pools := pools[d := pool];
        todo := todo - {d};
      }
    }

    method Stats(device: int) returns (stats: DeviceStats)
      requires Valid()
      ensures device !in pools ==> stats == DeviceStats(0, 0, 0, 0, 0)
      ensures device in pools ==>
                && stats.reserved == RegionBytes(pools[device].regions)
                && stats.idle == Sum(pools[device].blocks, true)
                && stats.busy == BusyBytes(pools[device].blocks)
                && stats.busy + stats.idle == stats.reserved
                && stats.blocks == |pools[device].blocks| && stats.regions == |pools[device].regions|
    {
      hide PoolsOk, Held, Holding, Sound, PoolOk, Live;
      if device !in pools {
        return DeviceStats(0, 0, 0, 0, 0);
      }
      var pool := pools[device];
      UsePool(pools, driver.live, device);
      BusyAndIdle(pool.blocks);
      stats := DeviceStats(pool.reservedBytes, pool.reservedBytes - pool.idleBytes, pool.idleBytes,
                           |pool.blocks|, |pool.regions|);
    }

    // The debug check never fires.
    method CheckLedgers() returns (ok: bool)
      requires Valid()
      ensures ok
    {
      hide Held, Holding, Sound, PoolOk, Live, Coalesced;
      var todo := pools.Keys;
      while todo != {}
        invariant todo <= pools.Keys
      {
        SomeIn(todo);
        var d :| d in todo;
        UsePool(pools, driver.live, d);
        ok := CheckLedger(pools[d]);
        if !ok {
          return;
        }
        todo := todo - {d};
      }
      return true;
    }
  }

  lemma SomeIn(s: set<int>)
    ensures s == {} || exists d :: d in s
  {
    if forall d :: d !in s {
      assert s == {};
    }
  }

  ghost function BusyBytes(bs: seq<Block>): nat {
    if bs == [] then 0
    else BusyBytes(bs[..|bs| - 1]) + if bs[|bs| - 1].busy then bs[|bs| - 1].size else 0
  }

  lemma {:induction false} BusyAndIdle(bs: seq<Block>)
    ensures Sum(bs, false) == Sum(bs, true) + BusyBytes(bs)
  {
    if bs != [] {
      BusyAndIdle(bs[..|bs| - 1]);
    }
  }

  lemma FlushingStarts(pools: Pools, total: nat)
    ensures Flushing(pools, pools, pools.Keys, total, [])
  {}

  lemma FlushingTodo(pools0: Pools, pools: Pools, todo: set<int>, total: nat, log: seq<Call>, d: int)
    requires Flushing(pools0, pools, todo, total, log) && d in todo
    ensures d in pools && d in pools0 && pools[d] == pools0[d] && pools.Keys == pools0.Keys
  {}

  lemma IsThresholded(pool: DevicePool, bytes: nat, total: nat, asked: seq<Call>)
    requires pool.flushThreshold != 0 ==> bytes == pool.flushThreshold && asked == []
    requires pool.flushThreshold == 0 ==>
               exists answered :: asked == [Queried(answered)] && bytes == Waterline(total, answered)
    ensures Thresholded(pool, bytes, total, asked) && forall c :: c in asked ==> c.Queried?
  {
    if pool.flushThreshold == 0 {
      var answered :| asked == [Queried(answered)] && bytes == Waterline(total, answered);
      assert Queried(answered) in asked;
    }
  }

  lemma DrainedThreshold(pool: DevicePool, r: DevicePool, freed: set<nat>, failed: set<nat>)
    requires Drained(pool, r, freed, failed)
    ensures r.flushThreshold == pool.flushThreshold
  {
    hide PoolOk, Ledgers, Live, Without, WholeRegions;
  }

  lemma NothingOffered(pools: Pools)
    ensures OnlyOffers(pools, []) && forall d :: d in pools ==> Untouched(pools[d], [])
  {}

  lemma FlushedAll(pools0: Pools, live: Regions, pools: Pools, d: int, todo: set<int>, log: seq<Call>, freed: set<nat>)
    requires PoolsOk(pools0, live) && pools.Keys == pools0.Keys && d in todo && todo <= pools.Keys
    requires forall e :: e in todo ==> Untouched(pools0[e], log)
    requires forall e :: e in pools && e !in todo ==> Flushed(pools0[e], pools[e], log)
    ensures var more := Offers(pools0[d].blocks, pools0[d].regions, freed);
            && (forall e :: e in todo && e != d ==> Untouched(pools0[e], log + more))
            && (forall e :: e in pools && e !in todo ==> Flushed(pools0[e], pools[e], log + more))
  {
    hide PoolsOk, Offers, Flushed;
    var more := Offers(pools0[d].blocks, pools0[d].regions, freed);
    forall e | e in pools && e != d ensures Untouched(pools0[e], more) {
      OffersElsewhere(pools0, live, d, e, freed);
    }
    forall e | e in pools && e !in todo ensures Flushed(pools0[e], pools[e], log + more) {
      FlushedStays(pools0[e], pools[e], log, more);
    }
  }
}
