/**
 The physical KV block pool as a value: a LIFO free list, reference counts,
 cache pins, and one row of blocks per sequence. A row lists the entries in
 use, in order; the entries after them are unused.
 */
module BlockPool {
  datatype Pool = Pool(
    free: seq<nat>,
    refs: seq<nat>,
    cached: seq<bool>,
    tables: seq<seq<nat>>,
    busy: seq<bool>,
    width: nat)

  // ---------------------------------------------------------------- the invariant

  predicate Shape(p: Pool) {
    && |p.cached| == |p.refs| && |p.busy| == |p.tables|
    && (forall r :: 0 <= r < |p.tables| ==> |p.tables[r]| <= p.width)
  }

  predicate Below(s: seq<nat>, n: nat) {
    forall i :: 0 <= i < |s| ==> s[i] < n
  }

  predicate NoDup(s: seq<nat>) {
    forall i, j :: 0 <= i < j < |s| ==> s[i] != s[j]
  }

  predicate InRange(p: Pool) {
    Below(p.free, |p.refs|) && forall r :: 0 <= r < |p.tables| ==> Below(p.tables[r], |p.refs|)
  }

  function Count(s: seq<nat>, b: nat): nat {
    multiset(s)[b]
  }

  // How many table entries name block b.
  function Occurrences(tables: seq<seq<nat>>, b: nat): nat {
    if tables == [] then 0
    else Occurrences(tables[..|tables| - 1], b) + Count(tables[|tables| - 1], b)
  }

  ghost predicate Rows(p: Pool) {
    forall r :: 0 <= r < |p.tables| ==> NoDup(p.tables[r])
  }

  // The state of block b: on the free list exactly when neither referenced nor
  // cached, and referenced as often as the tables name it.
  ghost predicate Accounted(p: Pool, b: nat)
    requires b < |p.refs| && |p.cached| == |p.refs|
  {
    && p.refs[b] == Occurrences(p.tables, b)
    && (b in p.free <==> p.refs[b] == 0 && !p.cached[b])
  }

  // What the pool's own check accepts.
  ghost predicate Inv(p: Pool)
    requires Shape(p)
  {
    && InRange(p) && NoDup(p.free) && Rows(p)
    && forall b :: 0 <= b < |p.refs| ==> Accounted(p, b)
  }

  // Only rows in use hold blocks.
  ghost predicate Owned(p: Pool)
    requires Shape(p)
  {
    forall r :: 0 <= r < |p.tables| && !p.busy[r] ==> p.tables[r] == []
  }

  ghost predicate PoolOk(p: Pool) {
    Shape(p) && Inv(p) && Owned(p)
  }

  // The whole pool free, block 0 the first to be handed out.
  function Fresh(blocks: nat, rows: nat, width: nat): Pool {
    Pool(seq(blocks, i requires 0 <= i < blocks => blocks - 1 - i), seq(blocks, i => 0), seq(blocks, i => false),
         seq(rows, i => []), seq(rows, i => false), width)
  }

  // ---------------------------------------------------------------- counting

  lemma CountIn(s: seq<nat>, b: nat)
    ensures Count(s, b) > 0 <==> b in s
  {}

  lemma {:induction false} NoDupCount(s: seq<nat>, b: nat)
    requires NoDup(s)
    ensures Count(s, b) == if b in s then 1 else 0
  {
    if s != [] {
      var front := s[..|s| - 1];
      NoDupCount(front, b);
      assert s == front + [s[|s| - 1]];
    }
  }

  lemma CountConcat(s: seq<nat>, t: seq<nat>, b: nat)
    ensures Count(s + t, b) == Count(s, b) + Count(t, b)
  {}

  lemma {:induction false} OccurrencesUpdate(tables: seq<seq<nat>>, r: nat, row: seq<nat>, b: nat)
    requires r < |tables|
    ensures Occurrences(tables[r := row], b) == Occurrences(tables, b) - Count(tables[r], b) + Count(row, b)
    ensures Occurrences(tables, b) >= Count(tables[r], b)
  {
    var n := |tables| - 1;
    if r == n {
      assert tables[r := row][..n] == tables[..n];
    } else {
      OccurrencesUpdate(tables[..n], r, row, b);
      assert tables[r := row][..n] == tables[..n][r := row];
    }
  }

  lemma {:induction false} OccurrencesTwo(tables: seq<seq<nat>>, q: nat, r: nat, b: nat)
    requires q < |tables| && r < |tables| && q != r && b in tables[q] && b in tables[r]
    ensures Occurrences(tables, b) >= 2
  {
    OccurrencesUpdate(tables, q, [], b);
    OccurrencesUpdate(tables[q := []], r, [], b);
    CountIn(tables[q], b);
    CountIn(tables[r], b);
  }

  lemma {:induction false} OccurrencesNone(tables: seq<seq<nat>>, b: nat)
    requires forall r :: 0 <= r < |tables| ==> b !in tables[r]
    ensures Occurrences(tables, b) == 0
  {
    if tables != [] {
      var n := |tables| - 1;
      CountIn(tables[n], b);
      OccurrencesNone(tables[..n], b);
    }
  }

  // A block of a row is referenced; if two rows hold it, at least twice.
  lemma HeldIsReferenced(p: Pool, r: nat, b: nat)
    requires Shape(p) && Inv(p) && r < |p.tables| && b in p.tables[r]
    ensures b < |p.refs| && p.refs[b] >= 1 && b !in p.free
    ensures p.refs[b] == 1 ==> forall q :: 0 <= q < |p.tables| && q != r ==> b !in p.tables[q]
  {
    assert Below(p.tables[r], |p.refs|);
    assert Accounted(p, b);
    OccurrencesUpdate(p.tables, r, [], b);
    CountIn(p.tables[r], b);
    forall q | 0 <= q < |p.tables| && q != r && b in p.tables[q] ensures p.refs[b] >= 2 {
      OccurrencesTwo(p.tables, q, r, b);
    }
  }

  lemma {:induction false} AllIndices(s: seq<nat>)
    ensures |set b | 0 <= b < |s| && s[b] >= 0| == |s|
  {
    if s != [] {
      var n := |s| - 1;
      AllIndices(s[..n]);
      assert s[n] >= 0;
      assert (set b | 0 <= b < |s| && s[b] >= 0) == (set b | 0 <= b < n && s[..n][b] >= 0) + {n};
    }
  }

  function Elements(s: seq<nat>): set<nat> {
    set b | b in s
  }

  lemma ElementsLast(front: seq<nat>, x: nat)
    ensures Elements(front + [x]) == Elements(front) + {x}
  {}

  lemma {:induction false} NoDupSize(s: seq<nat>)
    requires NoDup(s)
    ensures |Elements(s)| == |s|
  {
    if s != [] {
      var front, x := s[..|s| - 1], s[|s| - 1];
      assert s == front + [x];
      NoDupSize(front);
      ElementsLast(front, x);
      assert x !in front;
    }
  }

  function Referenced(p: Pool): set<nat> {
    set b | 0 <= b < |p.refs| && p.refs[b] > 0
  }

  // Unreferenced blocks kept for the cache.
  function Parked(p: Pool): set<nat>
    requires |p.cached| == |p.refs|
  {
    set b | 0 <= b < |p.refs| && p.refs[b] == 0 && p.cached[b]
  }

  lemma SizeOfThree(a: set<nat>, b: set<nat>, c: set<nat>)
    requires a !! b && (a + b) !! c
    ensures |a + b + c| == |a| + |b| + |c|
  {
    assert |a + b| == |a| + |b|;
  }

  // Every block is in exactly one of three states.
  lemma Conservation(p: Pool)
    requires Shape(p) && Inv(p)
    ensures |p.free| + |Referenced(p)| + |Parked(p)| == |p.refs|
  {
    var all := set b | 0 <= b < |p.refs| && p.refs[b] >= 0;
    AllIndices(p.refs);
    NoDupSize(p.free);
    forall b: nat
      ensures b in all <==> b in Elements(p.free) || b in Referenced(p) || b in Parked(p)
      ensures !(b in Elements(p.free) && b in Referenced(p)) && !(b in Elements(p.free) && b in Parked(p))
    {
      OneState(p, b);
    }
    hide Elements, Referenced, Parked, Inv;
    assert all == Elements(p.free) + Referenced(p) + Parked(p);
    assert Referenced(p) !! Parked(p) by {
      NotBoth(p);
    }
    SizeOfThree(Elements(p.free), Referenced(p), Parked(p));
  }

  lemma OneState(p: Pool, b: nat)
    requires Shape(p) && Inv(p)
    ensures b in p.free || b in Referenced(p) || b in Parked(p) <==> b < |p.refs|
    ensures b in p.free ==> b !in Referenced(p) && b !in Parked(p)
  {
    hide Occurrences;
    assert Below(p.free, |p.refs|);
    if b < |p.refs| {
      assert Accounted(p, b);
    }
  }

  lemma NotBoth(p: Pool)
    requires |p.cached| == |p.refs|
    ensures Referenced(p) !! Parked(p)
  {}

  // ---------------------------------------------------------------- taking blocks

  // The last free block becomes the next entry of row r.
  function TakeOne(p: Pool, r: nat): Pool
    requires p.free != [] && r < |p.tables| && p.free[|p.free| - 1] < |p.refs|
  {
    var b := p.free[|p.free| - 1];
    p.(free := p.free[..|p.free| - 1], refs := p.refs[b := 1], tables := p.tables[r := p.tables[r] + [b]])
  }

  lemma TakeOneKeeps(p: Pool, r: nat)
    requires Shape(p) && Inv(p) && p.free != [] && r < |p.tables| && |p.tables[r]| < p.width
    ensures p.free[|p.free| - 1] < |p.refs|
    ensures Shape(TakeOne(p, r)) && Inv(TakeOne(p, r))
    ensures p.refs[p.free[|p.free| - 1]] == 0 && !p.cached[p.free[|p.free| - 1]]
    ensures p.free[|p.free| - 1] !in p.tables[r]
  {
    hide Occurrences, Count;
    var n := |p.free| - 1;
    var b := p.free[n];
    assert Below(p.free, |p.refs|);
    assert Accounted(p, b);
    if b in p.tables[r] {
      HeldIsReferenced(p, r, b);
    }
    var q := TakeOne(p, r);
    assert NoDup(q.free);
    forall i | 0 <= i < |q.tables| ensures NoDup(q.tables[i]) && Below(q.tables[i], |q.refs|) {
      assert NoDup(p.tables[i]) && Below(p.tables[i], |p.refs|);
    }
    forall c | 0 <= c < |q.refs| ensures Accounted(q, c) {
      assert Accounted(p, c);
      OccurrencesUpdate(p.tables, r, p.tables[r] + [b], c);
      CountConcat(p.tables[r], [b], c);
      CountOne(b, c);
      assert c in p.free <==> c in q.free || c == b;
    }
  }

  lemma CountOne(b: nat, c: nat)
    ensures Count([b], c) == if b == c then 1 else 0
  {}

  // Blocks are taken one after the other; `Take` stops where the list is empty.
  function Take(p: Pool, r: nat, n: nat): (q: Pool)
    requires Shape(p) && r < |p.tables|
    ensures Shape(q) && |q.refs| == |p.refs| && |q.tables| == |p.tables|
    decreases n
  {
    if n == 0 || p.free == [] || p.free[|p.free| - 1] >= |p.refs| || |p.tables[r]| >= p.width then p
    else Take(TakeOne(p, r), r, n - 1)
  }

  // The last n free blocks, last one first.
  function Popped(free: seq<nat>, n: nat): seq<nat>
    requires n <= |free|
  {
    if n == 0 then [] else [free[|free| - 1]] + Popped(free[..|free| - 1], n - 1)
  }

  lemma {:induction false} TakeKeeps(p: Pool, r: nat, n: nat)
    requires Shape(p) && Inv(p) && r < |p.tables| && n <= |p.free| && |p.tables[r]| + n <= p.width
    ensures Inv(Take(p, r, n))
    ensures Take(p, r, n).free == p.free[..|p.free| - n]
    ensures Take(p, r, n).tables[r] == p.tables[r] + Popped(p.free, n)
    decreases n
  {
    hide InRange, NoDup, Rows, Accounted;
    if n > 0 {
      TakeOneKeeps(p, r);
      var q := TakeOne(p, r);
      TakeKeeps(q, r, n - 1);
      assert q.free == p.free[..|p.free| - 1];
      assert (p.tables[r] + [p.free[|p.free| - 1]]) + Popped(q.free, n - 1) == p.tables[r] + Popped(p.free, n);
    }
  }

  // Everything but the free list, the counts of the taken blocks and row r stays.
  lemma {:induction false} TakeFrame(p: Pool, r: nat, n: nat)
    requires Shape(p) && r < |p.tables|
    ensures var q := Take(p, r, n);
            q == p.(free := q.free, refs := q.refs, tables := p.tables[r := q.tables[r]])
    ensures forall b :: 0 <= b < |p.refs| && b !in p.free ==> Take(p, r, n).refs[b] == p.refs[b]
    ensures forall b :: 0 <= b < |p.refs| ==> Take(p, r, n).refs[b] == p.refs[b] || Take(p, r, n).refs[b] == 1
    decreases n
  {
    if !(n == 0 || p.free == [] || p.free[|p.free| - 1] >= |p.refs| || |p.tables[r]| >= p.width) {
      TakeFrame(TakeOne(p, r), r, n - 1);
    }
  }

  // ---------------------------------------------------------------- giving blocks back

  // One reference less; the last one parks a cached block and frees another.
  function DropRef(p: Pool, b: nat): Pool
    requires b < |p.refs| == |p.cached| && p.refs[b] > 0
  {
    p.(refs := p.refs[b := p.refs[b] - 1],
       free := if p.refs[b] == 1 && !p.cached[b] then p.free + [b] else p.free)
  }

  function Without(s: seq<nat>, i: nat): seq<nat>
    requires i < |s|
  {
    s[..i] + s[i + 1..]
  }

  // Entry i of row r is dropped.
  function DropEntry(p: Pool, r: nat, i: nat): Pool
    requires |p.cached| == |p.refs| && r < |p.tables| && i < |p.tables[r]|
    requires p.tables[r][i] < |p.refs| && p.refs[p.tables[r][i]] > 0
  {
    DropRef(p, p.tables[r][i]).(tables := p.tables[r := Without(p.tables[r], i)])
  }

  lemma CountWithout(s: seq<nat>, i: nat, b: nat)
    requires i < |s|
    ensures Count(s, b) == Count(Without(s, i), b) + (if s[i] == b then 1 else 0)
  {
    assert s == s[..i] + [s[i]] + s[i + 1..];
  }

  lemma WithoutNoDup(s: seq<nat>, i: nat, n: nat)
    requires NoDup(s) && Below(s, n) && i < |s|
    ensures NoDup(Without(s, i)) && Below(Without(s, i), n) && s[i] !in Without(s, i)
  {
    var t := Without(s, i);
    forall j | 0 <= j < |t| ensures t[j] == s[if j < i then j else j + 1] {}
  }

  lemma DropEntryKeeps(p: Pool, r: nat, i: nat)
    requires Shape(p) && Inv(p) && r < |p.tables| && i < |p.tables[r]|
    ensures p.tables[r][i] < |p.refs| && p.refs[p.tables[r][i]] > 0
    ensures Shape(DropEntry(p, r, i)) && Inv(DropEntry(p, r, i))
  {
    hide Occurrences, Count, Without;
    var b := p.tables[r][i];
    HeldIsReferenced(p, r, b);
    assert Below(p.tables[r], |p.refs|) && NoDup(p.tables[r]);
    WithoutNoDup(p.tables[r], i, |p.refs|);
    WithoutLength(p.tables[r], i);
    var q := DropEntry(p, r, i);
    forall k | 0 <= k < |q.tables| ensures NoDup(q.tables[k]) && Below(q.tables[k], |q.refs|) {
      assert NoDup(p.tables[k]) && Below(p.tables[k], |p.refs|);
    }
    forall c | 0 <= c < |q.refs| ensures Accounted(q, c) {
      assert Accounted(p, c);
      OccurrencesUpdate(p.tables, r, Without(p.tables[r], i), c);
      CountWithout(p.tables[r], i, c);
      assert c in q.free <==> c in p.free || (c == b && |q.free| > |p.free|);
    }
  }

  lemma WithoutLength(s: seq<nat>, i: nat)
    requires i < |s|
    ensures |Without(s, i)| == |s| - 1
    ensures Without(s, i)[..i] == s[..i]
    ensures Without(s, i)[i..] == s[i + 1..]
  {}

  // Entries from `start` on are dropped, in ascending order.
  function DropFrom(p: Pool, r: nat, start: nat): (q: Pool)
    requires r < |p.tables| && |p.cached| == |p.refs|
    ensures |q.refs| == |p.refs|
    decreases if start < |p.tables[r]| then |p.tables[r]| - start else 0
  {
    if start >= |p.tables[r]| || p.tables[r][start] >= |p.refs| || p.refs[p.tables[r][start]] == 0 then p
    else DropFrom(DropEntry(p, r, start), r, start)
  }

  // The row is given up once nothing is left in it.
  function FreeFrom(p: Pool, r: nat, start: nat): (q: Pool)
    requires Shape(p) && r < |p.tables|
    ensures |q.refs| == |p.refs|
  {
    DropFromLengths(p, r, start);
    var q := DropFrom(p, r, start);
    if q.tables[r] == [] then q.(busy := q.busy[r := false]) else q
  }

  lemma {:induction false} DropFromLengths(p: Pool, r: nat, start: nat)
    requires r < |p.tables| && |p.cached| == |p.refs|
    ensures var q := DropFrom(p, r, start);
            && |q.refs| == |p.refs| && |q.tables| == |p.tables| && q.busy == p.busy && q.cached == p.cached
            && q.width == p.width && q.tables == p.tables[r := q.tables[r]] && |q.tables[r]| <= |p.tables[r]|
    decreases if start < |p.tables[r]| then |p.tables[r]| - start else 0
  {
    if !(start >= |p.tables[r]| || p.tables[r][start] >= |p.refs| || p.refs[p.tables[r][start]] == 0) {
      DropFromLengths(DropEntry(p, r, start), r, start);
    }
  }

  // The blocks of s that one reference keeps off the free list.
  function Reclaimable(p: Pool, s: seq<nat>): nat
    requires Below(s, |p.refs|) && |p.cached| == |p.refs|
  {
    if s == [] then 0
    else (if p.refs[s[0]] == 1 && !p.cached[s[0]] then 1 else 0) + Reclaimable(p, s[1..])
  }

  lemma {:induction false} ReclaimableSame(p: Pool, q: Pool, s: seq<nat>)
    requires |q.refs| == |p.refs| == |p.cached| && q.cached == p.cached && Below(s, |p.refs|)
    requires forall b :: b in s ==> b < |p.refs| && q.refs[b] == p.refs[b]
    ensures Reclaimable(q, s) == Reclaimable(p, s)
  {
    if s != [] {
      assert s[0] < |p.refs|;
      ReclaimableSame(p, q, s[1..]);
    }
  }

  // Cutting a row keeps the pool consistent, leaves exactly the entries before
  // the cut, and grows the free list by exactly the reclaimable blocks.
  lemma {:induction false} DropFromKeeps(p: Pool, r: nat, start: nat)
    requires Shape(p) && Inv(p) && r < |p.tables|
    ensures var q := DropFrom(p, r, start);
            && Shape(q) && Inv(q)
            && q.tables == p.tables[r := p.tables[r][..if start < |p.tables[r]| then start else |p.tables[r]|]]
            && p.free <= q.free
    ensures start <= |p.tables[r]| ==> Below(p.tables[r][start..], |p.refs|)
    ensures start <= |p.tables[r]| ==> |DropFrom(p, r, start).free| == |p.free| + Reclaimable(p, p.tables[r][start..])
    ensures forall b :: 0 <= b < |p.refs| && b !in p.tables[r] ==>
              DropFrom(p, r, start).refs[b] == p.refs[b]
    decreases if start < |p.tables[r]| then |p.tables[r]| - start else 0
  {
    hide Inv, Rows, Accounted, NoDup, InRange, Without, Reclaimable;
    var row := p.tables[r];
    RowFacts(p, r);
    if start < |row| {
      DropEntryKeeps(p, r, start);
      var q := DropEntry(p, r, start);
      WithoutLength(row, start);
      DropFromKeeps(q, r, start);
      assert q.tables[r][start..] == row[start + 1..];
      assert row[start..][1..] == row[start + 1..];
      forall b | b in row[start + 1..] ensures b < |p.refs| && q.refs[b] == p.refs[b] {
        var i: nat :| i < |row[start + 1..]| && row[start + 1..][i] == b;
        assert row[start + 1 + i] == b;
      }
      ReclaimableSame(p, q, row[start + 1..]);
      ReclaimableOne(p, row[start..]);
      assert p.free <= q.free;
      assert q.tables[r := q.tables[r][..start]] == p.tables[r := row[..start]];
      forall b | 0 <= b < |p.refs| && b !in row ensures q.refs[b] == p.refs[b] && b !in q.tables[r] {
        WithoutWithin(row, start, b);
      }
    } else {
      assert row[..|row|] == row;
      if start == |row| {
        assert row[start..] == [];
        ReclaimableNone(p, row[start..]);
      }
    }
  }

  lemma WithoutWithin(s: seq<nat>, i: nat, b: nat)
    requires i < |s| && b !in s
    ensures b !in Without(s, i)
  {}

  lemma ReclaimableOne(p: Pool, s: seq<nat>)
    requires Below(s, |p.refs|) && |p.cached| == |p.refs| && s != []
    ensures s[0] < |p.refs| && Below(s[1..], |p.refs|)
    ensures Reclaimable(p, s) == (if p.refs[s[0]] == 1 && !p.cached[s[0]] then 1 else 0) + Reclaimable(p, s[1..])
  {}

  lemma ReclaimableNone(p: Pool, s: seq<nat>)
    requires s == [] && |p.cached| == |p.refs|
    ensures Reclaimable(p, s) == 0
  {}

  lemma RowFacts(p: Pool, r: nat)
    requires Shape(p) && Inv(p) && r < |p.tables|
    ensures Below(p.tables[r], |p.refs|)
    ensures forall i, j :: 0 <= i < j < |p.tables[r]| ==> p.tables[r][i] != p.tables[r][j]
    ensures forall i :: 0 <= i < |p.tables[r]| ==> p.tables[r][i] < |p.refs| && p.refs[p.tables[r][i]] > 0
  {
    assert NoDup(p.tables[r]);
    forall i | 0 <= i < |p.tables[r]| ensures p.tables[r][i] < |p.refs| && p.refs[p.tables[r][i]] > 0 {
      HeldIsReferenced(p, r, p.tables[r][i]);
    }
  }

  // Cutting a row, whole operation.
  lemma FreeFromKeeps(p: Pool, r: nat, start: nat)
    requires PoolOk(p) && r < |p.tables|
    ensures var q := FreeFrom(p, r, start);
            && PoolOk(q) && p.free <= q.free && q.cached == p.cached && |q.refs| == |p.refs| && q.width == p.width
            && q.tables == p.tables[r := p.tables[r][..if start < |p.tables[r]| then start else |p.tables[r]|]]
            && q.busy == p.busy[r := p.busy[r] && q.tables[r] != []]
    ensures start <= |p.tables[r]| ==> Below(p.tables[r][start..], |p.refs|)
    ensures start <= |p.tables[r]| ==> |FreeFrom(p, r, start).free| == |p.free| + Reclaimable(p, p.tables[r][start..])
    ensures forall b :: 0 <= b < |p.refs| && b !in p.tables[r] ==> FreeFrom(p, r, start).refs[b] == p.refs[b]
  {
    hide Inv;
    DropFromKeeps(p, r, start);
    DropFromLengths(p, r, start);
    var q := DropFrom(p, r, start);
    InvIgnoresBusy(q, q.busy[r := false]);
  }

  lemma InvIgnoresBusy(p: Pool, busy: seq<bool>)
    requires Shape(p) && |busy| == |p.busy|
    ensures Shape(p.(busy := busy)) && (Inv(p.(busy := busy)) <==> Inv(p))
  {
    var q := p.(busy := busy);
    if Inv(p) {
      forall b | 0 <= b < |q.refs| ensures Accounted(q, b) {
        assert Accounted(p, b);
      }
    }
    if Inv(q) {
      forall b | 0 <= b < |p.refs| ensures Accounted(p, b) {
        assert Accounted(q, b);
      }
    }
  }

  // ---------------------------------------------------------------- mounting

  function Increased(refs: seq<nat>, blocks: seq<nat>): seq<nat>
    requires Below(blocks, |refs|)
    ensures |Increased(refs, blocks)| == |refs|
  {
    if blocks == [] then refs
    else
      var front, b := blocks[..|blocks| - 1], blocks[|blocks| - 1];
      var more := Increased(refs, front);
      more[b := more[b] + 1]
  }

  lemma {:induction false} IncreasedCount(refs: seq<nat>, blocks: seq<nat>, b: nat)
    requires Below(blocks, |refs|) && b < |refs|
    ensures Increased(refs, blocks)[b] == refs[b] + Count(blocks, b)
  {
    if blocks != [] {
      var front := blocks[..|blocks| - 1];
      IncreasedCount(refs, front, b);
      assert blocks == front + [blocks[|blocks| - 1]];
    }
  }

  // The checks made before anything is mounted.
  predicate Mountable(p: Pool, r: nat, blocks: seq<int>)
    requires Shape(p)
  {
    && r < |p.tables| && blocks != [] && |p.tables[r]| + |blocks| <= p.width
    && forall i :: 0 <= i < |blocks| ==> MountableBlock(p, r, blocks[i])
  }

  predicate MountableBlock(p: Pool, r: nat, b: int)
    requires Shape(p) && r < |p.tables|
  {
    0 <= b < |p.refs| && (p.refs[b] > 0 || p.cached[b]) && b !in p.tables[r]
  }

  // Shared blocks go to the front of the row.
  function Mounted(p: Pool, r: nat, blocks: seq<nat>): Pool
    requires r < |p.tables| && Below(blocks, |p.refs|)
  {
    p.(refs := Increased(p.refs, blocks), tables := p.tables[r := blocks + p.tables[r]])
  }

  // The checks do not compare the mounted blocks with each other: the pool
  // stays consistent exactly when they are pairwise different.
  lemma MountKeepsIffNoDup(p: Pool, r: nat, blocks: seq<nat>)
    requires Shape(p) && Inv(p) && Mountable(p, r, blocks)
    ensures Below(blocks, |p.refs|)
    ensures Shape(Mounted(p, r, blocks))
    ensures Inv(Mounted(p, r, blocks)) <==> NoDup(blocks)
  {
    hide Occurrences, Count, Increased;
    assert Below(blocks, |p.refs|) by {
      forall i | 0 <= i < |blocks| ensures blocks[i] < |p.refs| {
        assert MountableBlock(p, r, blocks[i]);
      }
    }
    var q := Mounted(p, r, blocks);
    var row := blocks + p.tables[r];
    if NoDup(blocks) {
      MountedRow(p, r, blocks);
      forall k | 0 <= k < |q.tables| ensures NoDup(q.tables[k]) && Below(q.tables[k], |q.refs|) {
        assert NoDup(p.tables[k]) && Below(p.tables[k], |p.refs|);
      }
      forall c | 0 <= c < |q.refs| ensures Accounted(q, c) {
        assert Accounted(p, c);
        IncreasedCount(p.refs, blocks, c);
        OccurrencesUpdate(p.tables, r, row, c);
        CountConcat(blocks, p.tables[r], c);
        CountIn(blocks, c);
        if c in blocks {
          var i :| 0 <= i < |blocks| && blocks[i] == c;
          assert MountableBlock(p, r, blocks[i]);
        }
      }
    } else {
      var i, j :| 0 <= i < j < |blocks| && blocks[i] == blocks[j];
      assert q.tables[r][i] == q.tables[r][j];
      assert !NoDup(q.tables[r]);
    }
  }

  lemma MountedRow(p: Pool, r: nat, blocks: seq<nat>)
    requires Shape(p) && Inv(p) && Mountable(p, r, blocks) && NoDup(blocks)
    ensures NoDup(blocks + p.tables[r]) && Below(blocks + p.tables[r], |p.refs|)
  {
    var row := p.tables[r];
    assert NoDup(row) && Below(row, |p.refs|);
    forall i | 0 <= i < |blocks| ensures blocks[i] < |p.refs| && blocks[i] !in row {
      assert MountableBlock(p, r, blocks[i]);
    }
  }

  // ---------------------------------------------------------------- cache pins

  function MarkCached(p: Pool, b: nat): Pool
    requires b < |p.cached|
  {
    p.(cached := p.cached[b := true])
  }

  function EvictCached(p: Pool, b: nat): Pool
    requires b < |p.cached|
  {
    if p.cached[b] then p.(cached := p.cached[b := false], free := p.free + [b]) else p
  }

  lemma MarkCachedKeeps(p: Pool, b: nat)
    requires PoolOk(p) && b < |p.refs| && p.refs[b] > 0
    ensures PoolOk(MarkCached(p, b))
  {
    hide Occurrences;
    var q := MarkCached(p, b);
    forall c | 0 <= c < |q.refs| ensures Accounted(q, c) {
      assert Accounted(p, c);
    }
  }

  lemma EvictCachedKeeps(p: Pool, b: nat)
    requires PoolOk(p) && b < |p.refs| && p.refs[b] == 0
    ensures PoolOk(EvictCached(p, b))
  {
    hide Occurrences;
    var q := EvictCached(p, b);
    assert Accounted(p, b);
    assert Below(p.free, |p.refs|);
    forall c | 0 <= c < |q.refs| ensures Accounted(q, c) {
      assert Accounted(p, c);
    }
  }

  // ---------------------------------------------------------------- several cuts

  // A plan: rows to cut, and where.
  predicate IsPlan(p: Pool, cuts: seq<(nat, nat)>) {
    && (forall i :: 0 <= i < |cuts| ==> cuts[i].0 < |p.tables| && cuts[i].1 <= |p.tables[cuts[i].0]|)
    && (forall i, j :: 0 <= i < j < |cuts| ==> cuts[i].0 != cuts[j].0)
  }

  // What each cut would give back if it were the only one.
  ghost function Planned(p: Pool, cuts: seq<(nat, nat)>): nat
    requires PoolOk(p) && IsPlan(p, cuts)
    decreases |cuts|
  {
    if cuts == [] then 0
    else
      FreeFromKeeps(p, cuts[0].0, cuts[0].1);
      Reclaimable(p, p.tables[cuts[0].0][cuts[0].1..]) + Planned(p, cuts[1..])
  }

  ghost function CutAll(p: Pool, cuts: seq<(nat, nat)>): Pool
    requires PoolOk(p) && IsPlan(p, cuts)
    decreases |cuts|
  {
    if cuts == [] then p
    else
      FreeFromKeeps(p, cuts[0].0, cuts[0].1);
      CutAll(FreeFrom(p, cuts[0].0, cuts[0].1), cuts[1..])
  }

  // A cut elsewhere never makes a cut worth less.
  lemma {:induction false} CutElsewhere(p: Pool, q: Pool, s: seq<nat>)
    requires |q.refs| == |p.refs| == |p.cached| && q.cached == p.cached && Below(s, |p.refs|)
    requires forall b :: b in s && b < |p.refs| && p.refs[b] == 1 ==> q.refs[b] == 1
    ensures Reclaimable(q, s) >= Reclaimable(p, s)
  {
    if s != [] {
      assert s[0] in s;
      CutElsewhere(p, q, s[1..]);
    }
  }

  lemma {:induction false} PlannedAfter(p: Pool, r: nat, start: nat, cuts: seq<(nat, nat)>)
    requires PoolOk(p) && r < |p.tables| && start <= |p.tables[r]| && IsPlan(p, cuts)
    requires forall i :: 0 <= i < |cuts| ==> cuts[i].0 != r
    ensures PoolOk(FreeFrom(p, r, start)) && IsPlan(FreeFrom(p, r, start), cuts)
    ensures Planned(FreeFrom(p, r, start), cuts) >= Planned(p, cuts)
    decreases |cuts|
  {
    hide Inv, FreeFrom, Reclaimable;
    FreeFromKeeps(p, r, start);
    var q := FreeFrom(p, r, start);
    if cuts != [] {
      var (r1, start1) := cuts[0];
      FreeFromKeeps(p, r1, start1);
      FreeFromKeeps(q, r1, start1);
      var s := p.tables[r1][start1..];
      forall b | b in s && b < |p.refs| && p.refs[b] == 1 ensures q.refs[b] == 1 {
        OnlyThere(p, r1, start1, r, b);
      }
      CutElsewhere(p, q, s);
      PlannedAfter(p, r, start, cuts[1..]);
    }
  }

  lemma OnlyThere(p: Pool, r1: nat, start1: nat, r: nat, b: nat)
    requires PoolOk(p) && r < |p.tables| && r1 < |p.tables| && r != r1 && start1 <= |p.tables[r1]|
    requires b in p.tables[r1][start1..] && b < |p.refs| && p.refs[b] == 1
    ensures b !in p.tables[r]
  {
    hide Inv;
    HeldIsReferenced(p, r1, b);
  }

  // Preemption plans cuts in several rows against one state of the pool; carried
  // out one after the other they free at least what was planned.
  lemma {:induction false} PlanHolds(p: Pool, cuts: seq<(nat, nat)>)
    requires PoolOk(p) && IsPlan(p, cuts)
    ensures PoolOk(CutAll(p, cuts))
    ensures |CutAll(p, cuts).free| >= |p.free| + Planned(p, cuts)
    decreases |cuts|
  {
    hide Inv, FreeFrom, Reclaimable;
    if cuts != [] {
      FreeFromKeeps(p, cuts[0].0, cuts[0].1);
      PlannedAfter(p, cuts[0].0, cuts[0].1, cuts[1..]);
      PlanHolds(FreeFrom(p, cuts[0].0, cuts[0].1), cuts[1..]);
    }
  }
}
