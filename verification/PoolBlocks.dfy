/**
 The block list of one device pool. Blocks are slices of regions obtained from
 the driver; the list is unordered.
 */
module PoolBlocks {
  const ALIGNMENT: nat := 256
  const SIZE_MODULUS: nat := 0x1_0000_0000_0000_0000

  datatype Block = Block(data: nat, size: nat, busy: bool, region: nat) {
    function End(): nat {
      data + size
    }
  }

  type Regions = map<nat, nat>

  // Size arithmetic is modulo 2^64.
  function RoundUp(n: nat): nat {
    (n + ALIGNMENT - 1) % SIZE_MODULUS / ALIGNMENT * ALIGNMENT
  }

  // A request is rounded up to the next multiple of 256 unless the sum wraps
  // around, which happens exactly above 2^64 - 256.
  lemma RoundUpCovers(n: nat)
    requires 0 < n < SIZE_MODULUS
    ensures RoundUp(n) % 256 == 0
    ensures RoundUp(n) >= n <==> n <= SIZE_MODULUS - 256
    ensures n <= SIZE_MODULUS - 256 ==> n <= RoundUp(n) < n + 256
    ensures n > SIZE_MODULUS - ALIGNMENT ==> RoundUp(n) == 0
  {
    if n > SIZE_MODULUS - ALIGNMENT {
      assert (n + ALIGNMENT - 1) % SIZE_MODULUS == n + ALIGNMENT - 1 - SIZE_MODULUS;
    } else {
      assert (n + ALIGNMENT - 1) % SIZE_MODULUS == n + ALIGNMENT - 1;
    }
  }

  // ---------------------------------------------------------------- invariant

  // Aligned, not empty, and inside its region.
  ghost predicate Placed(b: Block, regions: Regions) {
    && b.size > 0 && b.size % ALIGNMENT == 0 && b.data % ALIGNMENT == 0
    && b.region in regions && b.region <= b.data && b.End() <= b.region + regions[b.region]
  }

  predicate Apart(a: Block, b: Block) {
    a.End() <= b.data || b.End() <= a.data
  }

  ghost predicate AllPlaced(bs: seq<Block>, regions: Regions) {
    forall b :: b in bs ==> Placed(b, regions)
  }

  ghost predicate AllApart(bs: seq<Block>) {
    forall i, j :: 0 <= i < |bs| && 0 <= j < |bs| && i != j ==> Apart(bs[i], bs[j])
  }

  ghost predicate Covers(b: Block, r: nat, a: nat) {
    b.region == r && b.data <= a < b.End()
  }

  ghost predicate Covered(bs: seq<Block>, r: nat, a: nat) {
    exists b :: b in bs && Covers(b, r, a)
  }

  // Every byte of every region belongs to a block.
  ghost predicate Tiled(bs: seq<Block>, regions: Regions) {
    forall r, a :: r in regions && r <= a < r + regions[r] ==> Covered(bs, r, a)
  }

  ghost predicate PoolOk(bs: seq<Block>, regions: Regions) {
    AllPlaced(bs, regions) && AllApart(bs) && Tiled(bs, regions)
  }

  // Two idle blocks of a region that touch.
  predicate Touching(a: Block, b: Block) {
    !a.busy && !b.busy && a.region == b.region && (a.End() == b.data || b.End() == a.data)
  }

  ghost predicate NoNeighbour(bs: seq<Block>, i: nat)
    requires i < |bs|
  {
    forall j :: 0 <= j < |bs| && j != i ==> !Touching(bs[i], bs[j])
  }

  // No two touching idle blocks, leaving block `but` out of account (-1: none).
  ghost predicate CoalescedBut(bs: seq<Block>, but: int) {
    forall i, j :: 0 <= i < |bs| && 0 <= j < |bs| && i != j && i != but && j != but ==> !Touching(bs[i], bs[j])
  }

  ghost predicate Coalesced(bs: seq<Block>) {
    CoalescedBut(bs, -1)
  }

  // Who holds what.
  ghost function Live(bs: seq<Block>): set<(nat, nat)> {
    set b | b in bs && b.busy :: (b.data, b.size)
  }

  // ---------------------------------------------------------------- ledgers

  function Weight(b: Block, idleOnly: bool): nat {
    if idleOnly && b.busy then 0 else b.size
  }

  function Sum(bs: seq<Block>, idleOnly: bool): nat {
    if bs == [] then 0 else Sum(bs[..|bs| - 1], idleOnly) + Weight(bs[|bs| - 1], idleOnly)
  }

  lemma {:induction false} SumUpdate(bs: seq<Block>, i: nat, b: Block, idleOnly: bool)
    requires i < |bs|
    ensures Sum(bs[i := b], idleOnly) == Sum(bs, idleOnly) - Weight(bs[i], idleOnly) + Weight(b, idleOnly)
    ensures Sum(bs, idleOnly) >= Weight(bs[i], idleOnly)
  {
    var front := bs[..|bs| - 1];
    if i == |bs| - 1 {
      assert bs[i := b][..|bs| - 1] == front;
    } else {
      SumUpdate(front, i, b, idleOnly);
      assert bs[i := b][..|bs| - 1] == front[i := b];
    }
  }

  lemma SumAppend(bs: seq<Block>, b: Block, idleOnly: bool)
    ensures Sum(bs + [b], idleOnly) == Sum(bs, idleOnly) + Weight(b, idleOnly)
  {
    assert (bs + [b])[..|bs|] == bs;
  }

  lemma {:induction false} SumConcat(a: seq<Block>, b: seq<Block>, idleOnly: bool)
    ensures Sum(a + b, idleOnly) == Sum(a, idleOnly) + Sum(b, idleOnly)
    decreases |b|
  {
    if b == [] {
      assert a + b == a;
    } else {
      assert (a + b)[..|a + b| - 1] == a + b[..|b| - 1];
      SumConcat(a, b[..|b| - 1], idleOnly);
    }
  }

  function Remove<T>(s: seq<T>, i: nat): seq<T>
    requires i < |s|
  {
    s[..i] + s[i + 1..]
  }

  lemma SumRemove(bs: seq<Block>, i: nat, idleOnly: bool)
    requires i < |bs|
    ensures Sum(bs, idleOnly) == Sum(Remove(bs, i), idleOnly) + Weight(bs[i], idleOnly)
  {
    SumConcat(bs[..i], bs[i + 1..], idleOnly);
    SumAppend(bs[..i], bs[i], idleOnly);
    SumConcat(bs[..i + 1], bs[i + 1..], idleOnly);
    assert bs[..i] + [bs[i]] == bs[..i + 1];
    assert bs[..i + 1] + bs[i + 1..] == bs;
  }

  ghost function RegionBytes(regions: Regions): nat
    decreases regions.Keys
  {
    if regions == map[] then 0
    else
      var r :| r in regions;
      regions[r] + RegionBytes(regions - {r})
  }

  lemma {:induction false} RegionBytesOf(regions: Regions, r: nat)
    requires r in regions
    ensures RegionBytes(regions) == regions[r] + RegionBytes(regions - {r})
    decreases regions.Keys
  {
    var q :| q in regions && RegionBytes(regions) == regions[q] + RegionBytes(regions - {q});
    if q != r {
      RegionBytesOf(regions - {q}, r);
      RegionBytesOf(regions - {r}, q);
      assert regions - {q} - {r} == regions - {r} - {q};
    }
  }

  lemma RegionBytesAdd(regions: Regions, r: nat, size: nat)
    requires r !in regions
    ensures RegionBytes(regions[r := size]) == RegionBytes(regions) + size
  {
    RegionBytesOf(regions[r := size], r);
    assert regions[r := size] - {r} == regions;
  }

  // The free part of the ledger is what is reserved and not handed out.
  lemma {:induction false} BusyIsRest(bs: seq<Block>)
    ensures Sum(bs, true) <= Sum(bs, false)
    ensures (forall b :: b in bs ==> b.busy) ==> Sum(bs, true) == 0
  {
    if bs != [] {
      BusyIsRest(bs[..|bs| - 1]);
    }
  }

  // ---------------------------------------------------------------- handing out

  // Block i is handed out as it is.
  function Taken(bs: seq<Block>, i: nat): seq<Block>
    requires i < |bs|
  {
    bs[i := bs[i].(busy := true)]
  }

  // The head of block i is handed out, its tail stays idle.
  function Split(bs: seq<Block>, i: nat, wanted: nat): seq<Block>
    requires i < |bs| && wanted < bs[i].size
  {
    bs[i := bs[i].(size := wanted, busy := true)]
    + [Block(bs[i].data + wanted, bs[i].size - wanted, false, bs[i].region)]
  }

  lemma InUpdate(bs: seq<Block>, i: nat, b: Block)
    requires i < |bs|
    ensures b in bs[i := b]
    ensures forall c :: c in bs && c != bs[i] ==> c in bs[i := b]
    ensures forall c :: c in bs[i := b] ==> c == b || c in bs
  {
    assert bs[i := b][i] == b;
    forall c | c in bs && c != bs[i] ensures c in bs[i := b] {
      var k :| 0 <= k < |bs| && bs[k] == c;
      assert bs[i := b][k] == c;
    }
  }

  // Only the busy flag of block i changes.
  lemma FlagKeepsOk(bs: seq<Block>, i: nat, busy: bool, regions: Regions)
    requires PoolOk(bs, regions) && i < |bs|
    ensures PoolOk(bs[i := bs[i].(busy := busy)], regions)
  {
    var b1 := bs[i].(busy := busy);
    var bs1 := bs[i := b1];
    InUpdate(bs, i, b1);
    assert bs[i] in bs;
    forall r, a | r in regions && r <= a < r + regions[r] ensures Covered(bs1, r, a) {
      assert Covered(bs, r, a);
      var b :| b in bs && Covers(b, r, a);
      if b == bs[i] {
        assert Covers(b1, r, a);
      }
    }
    forall j, k | 0 <= j < |bs1| && 0 <= k < |bs1| && j != k ensures Apart(bs1[j], bs1[k]) {
      assert Apart(bs[j], bs[k]);
    }
  }

  lemma SplitPlaced(bs: seq<Block>, i: nat, wanted: nat, regions: Regions)
    requires AllPlaced(bs, regions) && i < |bs|
    requires 0 < wanted < bs[i].size && wanted % ALIGNMENT == 0
    ensures AllPlaced(Split(bs, i, wanted), regions)
  {
    assert bs[i] in bs;
    InUpdate(bs, i, bs[i].(size := wanted, busy := true));
  }

  lemma SplitApart(bs: seq<Block>, i: nat, wanted: nat)
    requires AllApart(bs) && i < |bs| && 0 < wanted < bs[i].size
    ensures AllApart(Split(bs, i, wanted))
  {
    var bs1, n := Split(bs, i, wanted), |bs|;
    forall j, k | 0 <= j < |bs1| && 0 <= k < |bs1| && j != k ensures Apart(bs1[j], bs1[k]) {
      var j0, k0 := if j == n then i else j, if k == n then i else k;
      if j0 != k0 {
        assert Apart(bs[j0], bs[k0]);
      }
    }
  }

  lemma SplitTiled(bs: seq<Block>, i: nat, wanted: nat, regions: Regions)
    requires Tiled(bs, regions) && i < |bs| && wanted < bs[i].size
    ensures Tiled(Split(bs, i, wanted), regions)
  {
    var bs1 := Split(bs, i, wanted);
    InUpdate(bs, i, bs[i].(size := wanted, busy := true));
    forall r, a | r in regions && r <= a < r + regions[r] ensures Covered(bs1, r, a) {
      assert Covered(bs, r, a);
      var b :| b in bs && Covers(b, r, a);
      if b == bs[i] {
        assert Covers(bs1[i], r, a) || Covers(bs1[|bs|], r, a);
      } else {
        assert b in bs1;
      }
    }
  }

  lemma SplitKeepsOk(bs: seq<Block>, i: nat, wanted: nat, regions: Regions)
    requires PoolOk(bs, regions) && i < |bs|
    requires 0 < wanted < bs[i].size && wanted % ALIGNMENT == 0
    ensures PoolOk(Split(bs, i, wanted), regions)
  {
    SplitPlaced(bs, i, wanted, regions);
    SplitApart(bs, i, wanted);
    SplitTiled(bs, i, wanted, regions);
  }

  // Handing out never leaves two touching idle blocks.
  lemma TakenCoalesced(bs: seq<Block>, i: nat)
    requires Coalesced(bs) && i < |bs|
    ensures Coalesced(Taken(bs, i))
  {
    var bs1 := Taken(bs, i);
    forall j, k | 0 <= j < |bs1| && 0 <= k < |bs1| && j != k ensures !Touching(bs1[j], bs1[k]) {
      assert !Touching(bs[j], bs[k]);
    }
  }

  lemma SplitCoalesced(bs: seq<Block>, i: nat, wanted: nat)
    requires Coalesced(bs) && AllApart(bs) && i < |bs| && !bs[i].busy && 0 < wanted < bs[i].size
    requires forall b :: b in bs ==> b.size > 0
    ensures Coalesced(Split(bs, i, wanted))
  {
    var bs1, n := Split(bs, i, wanted), |bs|;
    forall j, k | 0 <= j < |bs1| && 0 <= k < |bs1| && j != k ensures !Touching(bs1[j], bs1[k]) {
      var j0, k0 := if j == n then i else j, if k == n then i else k;
      if j0 != k0 {
        assert !Touching(bs[j0], bs[k0]) && Apart(bs[j0], bs[k0]);
        assert bs[j0] in bs && bs[k0] in bs;
      }
    }
  }

  // A block from the driver becomes a region of its own.
  lemma GrowKeepsOk(bs: seq<Block>, regions: Regions, r: nat, size: nat)
    requires PoolOk(bs, regions) && r !in regions
    requires size > 0 && size % ALIGNMENT == 0 && r % ALIGNMENT == 0
    requires forall q :: q in regions ==> q + regions[q] <= r || r + size <= q
    ensures PoolOk(bs + [Block(r, size, true, r)], regions[r := size])
  {
    var x := Block(r, size, true, r);
    var bs1, regions1 := bs + [x], regions[r := size];
    forall j, k | 0 <= j < |bs1| && 0 <= k < |bs1| && j != k ensures Apart(bs1[j], bs1[k]) {
      if j < |bs| && k < |bs| {
        assert Apart(bs[j], bs[k]);
      } else {
        var o := bs1[if j < |bs| then j else k];
        assert o in bs && Placed(o, regions);
      }
    }
    forall q, a | q in regions1 && q <= a < q + regions1[q] ensures Covered(bs1, q, a) {
      if q == r {
        assert x in bs1 && Covers(x, q, a);
      } else {
        assert Covered(bs, q, a);
        var b :| b in bs && Covers(b, q, a);
        assert b in bs1;
      }
    }
  }

  lemma GrowCoalesced(bs: seq<Block>, x: Block)
    requires Coalesced(bs) && x.busy
    ensures Coalesced(bs + [x])
  {
    var bs1 := bs + [x];
    forall j, k | 0 <= j < |bs1| && 0 <= k < |bs1| && j != k ensures !Touching(bs1[j], bs1[k]) {
      if j < |bs| && k < |bs| {
        assert !Touching(bs[j], bs[k]);
      }
    }
  }

  // Handing out an idle block: whole, unless at least one alignment unit is left.
  function HandOut(bs: seq<Block>, i: nat, wanted: nat): seq<Block>
    requires i < |bs| && wanted <= bs[i].size
  {
    if bs[i].size - wanted >= ALIGNMENT then Split(bs, i, wanted) else Taken(bs, i)
  }

  // A leftover below one alignment unit is always nothing: what is handed out
  // has the size asked for. Tiling survives unless the rounding wrapped to 0.
  lemma HandOutKeepsOk(bs: seq<Block>, i: nat, n: nat, regions: Regions)
    requires PoolOk(bs, regions) && i < |bs| && !bs[i].busy
    requires 0 < n < SIZE_MODULUS && RoundUp(n) <= bs[i].size
    ensures PoolOk(HandOut(bs, i, RoundUp(n)), regions) <==> n <= SIZE_MODULUS - ALIGNMENT
    ensures HandOut(bs, i, RoundUp(n))[i] == bs[i].(size := RoundUp(n), busy := true)
  {
    var wanted := RoundUp(n);
    RoundUpCovers(n);
    assert bs[i] in bs && Placed(bs[i], regions);
    var left := bs[i].size - wanted;
    assert left % ALIGNMENT == 0;
    if left < ALIGNMENT {
      assert left == 0;
      FlagKeepsOk(bs, i, true, regions);
    } else if wanted > 0 {
      SplitKeepsOk(bs, i, wanted, regions);
    } else {
      var b := Split(bs, i, wanted)[i];
      assert b in Split(bs, i, wanted) && !Placed(b, regions);
    }
  }

  lemma HandOutCoalesced(bs: seq<Block>, i: nat, wanted: nat, regions: Regions)
    requires PoolOk(bs, regions) && Coalesced(bs) && i < |bs| && !bs[i].busy && 0 < wanted <= bs[i].size
    ensures Coalesced(HandOut(bs, i, wanted))
  {
    if bs[i].size - wanted >= ALIGNMENT {
      assert forall b :: b in bs ==> Placed(b, regions);
      SplitCoalesced(bs, i, wanted);
    } else {
      TakenCoalesced(bs, i);
    }
  }

  lemma HandOutSums(bs: seq<Block>, i: nat, n: nat, regions: Regions)
    requires PoolOk(bs, regions) && i < |bs| && !bs[i].busy
    requires 0 < n < SIZE_MODULUS && RoundUp(n) <= bs[i].size
    ensures Sum(HandOut(bs, i, RoundUp(n)), true) == Sum(bs, true) - RoundUp(n)
    ensures Sum(HandOut(bs, i, RoundUp(n)), false) == Sum(bs, false)
  {
    var wanted := RoundUp(n);
    HandOutKeepsOk(bs, i, n, regions);
    var b := HandOut(bs, i, wanted)[i];
    var tail := Block(bs[i].data + wanted, bs[i].size - wanted, false, bs[i].region);
    SumUpdate(bs, i, b, true);
    SumUpdate(bs, i, b, false);
    SumAppend(bs[i := b], tail, true);
    SumAppend(bs[i := b], tail, false);
  }

  // ---------------------------------------------------------------- ownership

  // The bytes a caller was given lie in no other block.
  lemma LiveUpdate(bs: seq<Block>, i: nat, b: Block)
    requires i < |bs| && AllApart(bs) && bs[i].size > 0
    ensures (bs[i].data, bs[i].size) in Live(bs) <==> bs[i].busy
    ensures Live(bs[i := b]) ==
            Live(bs) - {(bs[i].data, bs[i].size)} + (if b.busy then {(b.data, b.size)} else {})
  {
    var bs1 := bs[i := b];
    var x := (bs[i].data, bs[i].size);
    InUpdate(bs, i, b);
    assert bs[i] in bs && b in bs1;
    forall j | 0 <= j < |bs| && j != i ensures (bs[j].data, bs[j].size) != x {
      assert Apart(bs[i], bs[j]);
    }
    forall y | y in Live(bs) - {x} ensures y in Live(bs1) {
      var c :| c in bs && c.busy && y == (c.data, c.size);
      assert c in bs1;
    }
    forall y | y in Live(bs1) ensures (y in Live(bs) && y != x) || (b.busy && y == (b.data, b.size)) {
      var c :| c in bs1 && c.busy && y == (c.data, c.size);
      var k :| 0 <= k < |bs1| && bs1[k] == c;
      if k != i {
        assert bs[k] == c;
      }
    }
  }

  lemma LiveAppend(bs: seq<Block>, b: Block)
    ensures Live(bs + [b]) == Live(bs) + (if b.busy then {(b.data, b.size)} else {})
  {
    assert forall c :: c in bs + [b] <==> c in bs || c == b;
  }

  lemma HandOutLive(bs: seq<Block>, i: nat, n: nat, regions: Regions)
    requires PoolOk(bs, regions) && i < |bs| && !bs[i].busy
    requires 0 < n < SIZE_MODULUS && RoundUp(n) <= bs[i].size
    ensures Live(HandOut(bs, i, RoundUp(n))) == Live(bs) + {(bs[i].data, RoundUp(n))}
    ensures forall x :: x in Live(bs) ==> x.0 + x.1 <= bs[i].data || bs[i].End() <= x.0
  {
    var wanted := RoundUp(n);
    HandOutKeepsOk(bs, i, n, regions);
    assert bs[i] in bs && Placed(bs[i], regions);
    var b := HandOut(bs, i, wanted)[i];
    LiveUpdate(bs, i, b);
    LiveAppend(bs[i := b], Block(bs[i].data + wanted, bs[i].size - wanted, false, bs[i].region));
    forall x | x in Live(bs) ensures x.0 + x.1 <= bs[i].data || bs[i].End() <= x.0 {
      var c :| c in bs && c.busy && x == (c.data, c.size);
      var k :| 0 <= k < |bs| && bs[k] == c;
      assert Apart(bs[i], bs[k]);
    }
  }

  // ---------------------------------------------------------------- merging

  // Block j is absorbed by block i.
  function Joined(a: Block, b: Block): Block {
    if b.End() == a.data then a.(data := b.data, size := a.size + b.size) else a.(size := a.size + b.size)
  }

  function Absorbed(bs: seq<Block>, i: nat, j: nat): seq<Block>
    requires i < |bs| && j < |bs|
  {
    Remove(bs[i := Joined(bs[i], bs[j])], j)
  }

  // Where block i is once block j is gone.
  function Shifted(i: nat, j: nat): nat
    requires i != j
  {
    if j < i then i - 1 else i
  }

  function Back(k: nat, j: nat): nat {
    if k < j then k else k + 1
  }

  lemma AbsorbedAt(bs: seq<Block>, i: nat, j: nat)
    requires i < |bs| && j < |bs| && i != j
    ensures |Absorbed(bs, i, j)| == |bs| - 1
    ensures Absorbed(bs, i, j)[Shifted(i, j)] == Joined(bs[i], bs[j])
    ensures forall k {:trigger Absorbed(bs, i, j)[k]} :: 0 <= k < |bs| - 1 && k != Shifted(i, j) ==>
              Absorbed(bs, i, j)[k] == bs[Back(k, j)] && Back(k, j) != i && Back(k, j) != j
    ensures forall c {:trigger c in bs} :: c in bs && c != bs[i] && c != bs[j] ==> c in Absorbed(bs, i, j)
  {
    var bs1 := Absorbed(bs, i, j);
    forall c | c in bs && c != bs[i] && c != bs[j] ensures c in bs1 {
      var k :| 0 <= k < |bs| && bs[k] == c;
      assert bs1[Shifted(k, j)] == c;
    }
  }

  lemma JoinedApart(a: Block, b: Block, c: Block)
    requires Touching(a, b) && a.size > 0 && b.size > 0 && c.size > 0
    requires Apart(a, b) && Apart(a, c) && Apart(b, c)
    ensures Apart(Joined(a, b), c)
  {}

  lemma AbsorbApart(bs: seq<Block>, i: nat, j: nat, regions: Regions)
    requires AllPlaced(bs, regions) && AllApart(bs) && i < |bs| && j < |bs| && i != j
    requires Touching(bs[i], bs[j])
    ensures AllApart(Absorbed(bs, i, j))
  {
    hide Touching, Apart, Absorbed, Joined;
    AbsorbedAt(bs, i, j);
    var bs1, s := Absorbed(bs, i, j), Shifted(i, j);
    forall k | 0 <= k < |bs1| && k != s ensures Apart(bs1[s], bs1[k]) && Apart(bs1[k], bs1[s]) {
      var o := Back(k, j);
      assert Apart(bs[i], bs[j]) && Apart(bs[i], bs[o]) && Apart(bs[j], bs[o]);
      assert bs[i] in bs && bs[j] in bs && bs[o] in bs;
      assert Placed(bs[i], regions) && Placed(bs[j], regions) && Placed(bs[o], regions);
      JoinedApart(bs[i], bs[j], bs[o]);
      ApartSwap(bs1[s], bs1[k]);
    }
    forall k, l | 0 <= k < |bs1| && 0 <= l < |bs1| && k != l ensures Apart(bs1[k], bs1[l]) {
      if k != s && l != s {
        assert Apart(bs[Back(k, j)], bs[Back(l, j)]);
      }
    }
  }

  lemma ApartSwap(a: Block, b: Block)
    ensures Apart(a, b) <==> Apart(b, a)
  {}

  lemma AbsorbPlaced(bs: seq<Block>, i: nat, j: nat, regions: Regions)
    requires AllPlaced(bs, regions) && i < |bs| && j < |bs| && i != j && Touching(bs[i], bs[j])
    ensures AllPlaced(Absorbed(bs, i, j), regions)
  {
    hide Absorbed;
    AbsorbedAt(bs, i, j);
    var bs1 := Absorbed(bs, i, j);
    assert bs[i] in bs && bs[j] in bs;
    assert Placed(bs[i], regions) && Placed(bs[j], regions);
    forall c | c in bs1 ensures Placed(c, regions) {
      var k :| 0 <= k < |bs1| && bs1[k] == c;
      if k != Shifted(i, j) {
        assert bs[Back(k, j)] in bs;
      }
    }
  }

  lemma AbsorbTiled(bs: seq<Block>, i: nat, j: nat, regions: Regions)
    requires Tiled(bs, regions) && i < |bs| && j < |bs| && i != j && Touching(bs[i], bs[j])
    ensures Tiled(Absorbed(bs, i, j), regions)
  {
    hide Absorbed;
    AbsorbedAt(bs, i, j);
    var bs1 := Absorbed(bs, i, j);
    var m := bs1[Shifted(i, j)];
    forall r, a | r in regions && r <= a < r + regions[r] ensures Covered(bs1, r, a) {
      assert Covered(bs, r, a);
      var b :| b in bs && Covers(b, r, a);
      if b == bs[i] || b == bs[j] {
        assert Covers(m, r, a);
      } else {
        assert b in bs1;
      }
    }
  }

  lemma AbsorbLive(bs: seq<Block>, i: nat, j: nat)
    requires i < |bs| && j < |bs| && i != j && Touching(bs[i], bs[j])
    ensures Live(Absorbed(bs, i, j)) == Live(bs)
  {
    hide Absorbed;
    AbsorbedAt(bs, i, j);
    var bs1 := Absorbed(bs, i, j);
    forall c | c in bs1 && c.busy ensures c in bs {
      var k :| 0 <= k < |bs1| && bs1[k] == c;
      assert k != Shifted(i, j);
      assert bs[Back(k, j)] in bs;
    }
    forall c | c in bs && c.busy ensures c in bs1 {
    }
  }

  lemma AbsorbSum(bs: seq<Block>, i: nat, j: nat, idleOnly: bool)
    requires i < |bs| && j < |bs| && i != j && Touching(bs[i], bs[j])
    ensures Sum(Absorbed(bs, i, j), idleOnly) == Sum(bs, idleOnly)
  {
    var b := Joined(bs[i], bs[j]);
    SumUpdate(bs, i, b, idleOnly);
    SumRemove(bs[i := b], j, idleOnly);
  }

  lemma AbsorbCoalesced(bs: seq<Block>, i: nat, j: nat)
    requires i < |bs| && j < |bs| && i != j && CoalescedBut(bs, i)
    ensures CoalescedBut(Absorbed(bs, i, j), Shifted(i, j))
  {
    hide Absorbed, Touching;
    AbsorbedAt(bs, i, j);
    var bs1, s := Absorbed(bs, i, j), Shifted(i, j);
    forall k, l | 0 <= k < |bs1| && 0 <= l < |bs1| && k != l && k != s && l != s
      ensures !Touching(bs1[k], bs1[l])
    {
      assert !Touching(bs[Back(k, j)], bs[Back(l, j)]);
    }
  }

  lemma TouchingSwap(a: Block, b: Block)
    ensures Touching(a, b) <==> Touching(b, a)
  {}

  lemma NoNeighbourCoalesced(bs: seq<Block>, i: nat)
    requires i < |bs| && CoalescedBut(bs, i) && NoNeighbour(bs, i)
    ensures Coalesced(bs)
  {
    hide Touching;
    forall j, k | 0 <= j < |bs| && 0 <= k < |bs| && j != k ensures !Touching(bs[j], bs[k]) {
      TouchingSwap(bs[j], bs[k]);
    }
  }

  // What merging around one block never changes.
  ghost predicate SameHoldings(bs: seq<Block>, bs1: seq<Block>, regions: Regions) {
    && (PoolOk(bs, regions) ==> PoolOk(bs1, regions))
    && Live(bs1) == Live(bs)
    && Sum(bs1, true) == Sum(bs, true)
    && Sum(bs1, false) == Sum(bs, false)
  }

  lemma AbsorbSameHoldings(bs: seq<Block>, i: nat, j: nat, regions: Regions)
    requires i < |bs| && j < |bs| && i != j && Touching(bs[i], bs[j])
    ensures SameHoldings(bs, Absorbed(bs, i, j), regions)
  {
    hide Absorbed, Touching, AllPlaced, AllApart, Tiled, Live, Sum;
    AbsorbLive(bs, i, j);
    AbsorbSum(bs, i, j, true);
    AbsorbSum(bs, i, j, false);
    if PoolOk(bs, regions) {
      AbsorbPlaced(bs, i, j, regions);
      AbsorbApart(bs, i, j, regions);
      AbsorbTiled(bs, i, j, regions);
    }
  }

  // Giving block i back, before any merging.
  lemma GiveBack(bs: seq<Block>, i: nat, regions: Regions)
    requires PoolOk(bs, regions) && i < |bs| && bs[i].busy
    ensures PoolOk(bs[i := bs[i].(busy := false)], regions)
    ensures Live(bs[i := bs[i].(busy := false)]) == Live(bs) - {(bs[i].data, bs[i].size)}
    ensures (bs[i].data, bs[i].size) in Live(bs)
    ensures Sum(bs[i := bs[i].(busy := false)], true) == Sum(bs, true) + bs[i].size
    ensures Sum(bs[i := bs[i].(busy := false)], false) == Sum(bs, false)
    ensures Coalesced(bs) ==> CoalescedBut(bs[i := bs[i].(busy := false)], i)
  {
    var b := bs[i].(busy := false);
    assert bs[i] in bs && Placed(bs[i], regions);
    FlagKeepsOk(bs, i, false, regions);
    LiveUpdate(bs, i, b);
    SumUpdate(bs, i, b, true);
    SumUpdate(bs, i, b, false);
  }

  // ---------------------------------------------------------------- whole regions

  // An idle block that is its whole region.
  predicate WholeIdle(b: Block, regions: Regions) {
    !b.busy && b.data == b.region && b.region in regions && regions[b.region] == b.size
  }

  // A block that is its whole region shares it with no other block.
  lemma WholeIsOnly(bs: seq<Block>, i: nat, regions: Regions)
    requires PoolOk(bs, regions) && i < |bs| && WholeIdle(bs[i], regions)
    ensures forall j :: 0 <= j < |bs| && j != i ==> bs[j].region != bs[i].region
  {
    forall j | 0 <= j < |bs| && j != i ensures bs[j].region != bs[i].region {
      assert Apart(bs[i], bs[j]);
      assert bs[j] in bs && Placed(bs[j], regions);
    }
  }

  lemma RemoveAt<T>(s: seq<T>, i: nat)
    requires i < |s|
    ensures |Remove(s, i)| == |s| - 1
    ensures forall k {:trigger Remove(s, i)[k]} :: 0 <= k < |s| - 1 ==> Remove(s, i)[k] == s[Back(k, i)]
    ensures forall k :: 0 <= k < |s| && k != i ==> s[k] in Remove(s, i)
    ensures forall c :: c in Remove(s, i) ==> c in s
  {
    var t := Remove(s, i);
    forall k | 0 <= k < |s| && k != i ensures s[k] in t {
      assert t[Shifted(k, i)] == s[k];
    }
  }

  // A whole idle region can be taken out without a trace.
  lemma DropRegion(bs: seq<Block>, i: nat, regions: Regions)
    requires PoolOk(bs, regions) && i < |bs| && WholeIdle(bs[i], regions)
    ensures PoolOk(Remove(bs, i), regions - {bs[i].region})
    ensures Live(Remove(bs, i)) == Live(bs)
    ensures Coalesced(bs) ==> Coalesced(Remove(bs, i))
  {
    hide Remove, Apart, Touching;
    var bs1, regions1, r := Remove(bs, i), regions - {bs[i].region}, bs[i].region;
    RemoveAt(bs, i);
    WholeIsOnly(bs, i, regions);
    forall c | c in bs1 ensures c in bs && c.region != r {
      var k :| 0 <= k < |bs1| && bs1[k] == c;
    }
    forall c | c in bs && c.region != r ensures c in bs1 {
      var k :| 0 <= k < |bs| && bs[k] == c;
    }
    DropPlaced(bs, bs1, regions, r);
    DropTiled(bs, bs1, regions, r);
    DropPairs(bs, i);
    DropLive(bs, i);
  }

  lemma DropPlaced(bs: seq<Block>, bs1: seq<Block>, regions: Regions, r: nat)
    requires AllPlaced(bs, regions) && forall c :: c in bs1 ==> c in bs && c.region != r
    ensures AllPlaced(bs1, regions - {r})
  {
    forall c | c in bs1 ensures Placed(c, regions - {r}) {
      assert Placed(c, regions);
    }
  }

  lemma DropTiled(bs: seq<Block>, bs1: seq<Block>, regions: Regions, r: nat)
    requires Tiled(bs, regions) && forall c :: c in bs && c.region != r ==> c in bs1
    ensures Tiled(bs1, regions - {r})
  {
    forall q, a | q in regions - {r} && q <= a < q + regions[q] ensures Covered(bs1, q, a) {
      assert Covered(bs, q, a);
    }
  }

  lemma DropPairs(bs: seq<Block>, i: nat)
    requires i < |bs| && AllApart(bs)
    ensures AllApart(Remove(bs, i))
    ensures Coalesced(bs) ==> Coalesced(Remove(bs, i))
  {
    hide Remove, Apart, Touching;
    var bs1 := Remove(bs, i);
    RemoveAt(bs, i);
    forall j, k | 0 <= j < |bs1| && 0 <= k < |bs1| && j != k
      ensures Apart(bs1[j], bs1[k]) && (Coalesced(bs) ==> !Touching(bs1[j], bs1[k]))
    {
      assert Apart(bs[Back(j, i)], bs[Back(k, i)]);
    }
  }

  lemma DropLive(bs: seq<Block>, i: nat)
    requires i < |bs| && !bs[i].busy
    ensures Live(Remove(bs, i)) == Live(bs)
  {
    hide Remove;
    var bs1 := Remove(bs, i);
    RemoveAt(bs, i);
    forall c | c in bs && c.busy ensures c in bs1 {
      var k :| 0 <= k < |bs| && bs[k] == c;
    }
  }

  // The blocks outside some regions, in order.
  function Without(bs: seq<Block>, freed: set<nat>): seq<Block> {
    if bs == [] then []
    else
      var n := |bs| - 1;
      Without(bs[..n], freed) + (if bs[n].region in freed then [] else [bs[n]])
  }

  lemma {:induction false} WithoutMore(bs: seq<Block>, freed: set<nat>, r: nat)
    requires forall b :: b in bs ==> b.region != r
    ensures Without(bs, freed + {r}) == Without(bs, freed)
  {
    if bs != [] {
      var n := |bs| - 1;
      assert bs[n] in bs;
      WithoutMore(bs[..n], freed, r);
    }
  }

  lemma {:induction false} WithoutNothing(bs: seq<Block>)
    ensures Without(bs, {}) == bs
  {
    if bs != [] {
      WithoutNothing(bs[..|bs| - 1]);
    }
  }

  // Where an idle block ends inside an idle region, the next one touches it.
  lemma TouchingPair(bs: seq<Block>, regions: Regions, b: Block)
    requires PoolOk(bs, regions) && b in bs && b.End() < b.region + regions[b.region]
    requires forall c :: c in bs && c.region == b.region ==> !c.busy
    ensures !Coalesced(bs)
  {
    var r := b.region;
    assert Placed(b, regions);
    assert Covered(bs, r, b.End());
    var c :| c in bs && Covers(c, r, b.End());
    var i, j :| 0 <= i < |bs| && 0 <= j < |bs| && bs[i] == b && bs[j] == c;
    assert Apart(bs[i], bs[j]);
    assert Touching(bs[i], bs[j]);
  }

  // In a pool with everything merged, a region is one idle block as soon as
  // nothing in it is held.
  lemma IdleRegionIsWhole(bs: seq<Block>, regions: Regions, r: nat)
    requires PoolOk(bs, regions) && Coalesced(bs) && r in regions && regions[r] > 0
    ensures (exists b :: b in bs && b.region == r && WholeIdle(b, regions))
            <==> (forall b :: b in bs && b.region == r ==> !b.busy)
  {
    if b0 :| b0 in bs && b0.region == r && WholeIdle(b0, regions) {
      var i :| 0 <= i < |bs| && bs[i] == b0;
      WholeIsOnly(bs, i, regions);
    }
    if forall b :: b in bs && b.region == r ==> !b.busy {
      assert Covered(bs, r, r);
      var b :| b in bs && Covers(b, r, r);
      assert Placed(b, regions);
      if b.size < regions[r] {
        TouchingPair(bs, regions, b);
        assert false;
      } else {
        assert WholeIdle(b, regions);
      }
    }
  }

  // A region's first byte is the first byte of a block.
  lemma RegionStartsABlock(bs: seq<Block>, regions: Regions, r: nat)
    requires PoolOk(bs, regions) && r in regions && regions[r] > 0
    ensures exists b :: b in bs && b.data == r && b.region == r
  {
    assert Covered(bs, r, r);
    var b :| b in bs && Covers(b, r, r);
    assert Placed(b, regions);
  }
}
