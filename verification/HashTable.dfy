/**
 The dense robin-hood hash table: a vector of entries without holes, indexed by
 a circular bucket array. Every operation is proved to act on the finite map
 `Model()` (and to say what happens to the order of the entries).
 */
module HashTable {
  import opened Wrappers
  import opened BucketArray
  import opened Bytes

  const MAX_BUCKETS: nat := 0x1_0000_0000
  const INITIAL_SHIFTS: nat := 62

  function Pow2(k: nat): (r: nat)
    ensures r >= 1
  {
    if k == 0 then 1 else 2 * Pow2(k - 1)
  }

  function NumBuckets(shifts: nat): nat
    requires shifts <= 64
  {
    if Pow2(64 - shifts) < MAX_BUCKETS then Pow2(64 - shifts) else MAX_BUCKETS
  }

  // The bucket count times the single-precision 0.8, which is 13421773 / 2^24;
  // the product with a power of two is exact, the conversion back truncates.
  function Scaled(n: nat): nat {
    n * 13421773 / 16777216
  }

  function MaxCapacity(n: nat): nat {
    if n == MAX_BUCKETS then MAX_BUCKETS else Scaled(n)
  }

  // Below the largest table, four fifths of the buckets may be used, with the
  // rounding error of the single-precision 0.8.
  lemma FourFifths(n: nat)
    requires n < MAX_BUCKETS
    ensures 4 * n - 5 < 5 * MaxCapacity(n) <= 4 * n + n / 0x100_0000 + 1
  {
    assert 5 * 13421773 == 4 * 16777216 + 1;
    var c := n * 13421773 / 16777216;
    assert 16777216 * c <= n * 13421773 < 16777216 * c + 16777216;
  }

  // The top bits of the hash, cut to a 32-bit index.
  function HomeOf(h: u64, shifts: nat): nat {
    h / Pow2(shifts) % MAX_BUCKETS
  }

  function SigOf(h: u64, shifts: nat): Sig {
    Sig(HomeOf(h, shifts), h % DIST_INC)
  }

  lemma {:induction false} Pow2Split(a: nat, b: nat)
    ensures Pow2(a) * Pow2(b) == Pow2(a + b)
    decreases a
  {
    if a > 0 {
      Pow2Split(a - 1, b);
    }
  }

  lemma {:induction false} Pow2Grows(a: nat, b: nat)
    requires a <= b
    ensures Pow2(a) <= Pow2(b)
    decreases b
  {
    if a < b {
      Pow2Grows(a, b - 1);
    }
  }

  lemma Pow2Plus8(k: nat)
    ensures Pow2(k + 8) == 256 * Pow2(k)
  {
    assert Pow2(k + 2) == 4 * Pow2(k);
    assert Pow2(k + 4) == 4 * Pow2(k + 2);
    assert Pow2(k + 6) == 4 * Pow2(k + 4);
    assert Pow2(k + 8) == 4 * Pow2(k + 6);
  }

  lemma Pow2Of64()
    ensures Pow2(64) == 0x1_0000_0000_0000_0000
    ensures Pow2(32) == MAX_BUCKETS && Pow2(2) == 4
  {
    assert Pow2(0) == 1;
    Pow2Plus8(0);
    Pow2Plus8(8);
    Pow2Plus8(16);
    Pow2Plus8(24);
    Pow2Plus8(32);
    Pow2Plus8(40);
    Pow2Plus8(48);
    Pow2Plus8(56);
    assert Pow2(1) == 2;
  }

  lemma QuotientInRange(h: u64, shifts: nat)
    requires shifts <= INITIAL_SHIFTS
    ensures h / Pow2(shifts) < Pow2(64 - shifts)
  {
    Pow2Of64();
    Pow2Split(shifts, 64 - shifts);
    QuotientBelow(h, Pow2(shifts), Pow2(64 - shifts));
  }

  // Every hash has a home inside the bucket array.
  lemma HomeInRange(h: u64, shifts: nat)
    requires shifts <= INITIAL_SHIFTS
    ensures HomeOf(h, shifts) < NumBuckets(shifts)
    ensures 4 <= NumBuckets(shifts) <= MAX_BUCKETS
  {
    QuotientInRange(h, shifts);
    ModBelow(h / Pow2(shifts), MAX_BUCKETS);
    Pow2Of64();
    Pow2Grows(2, 64 - shifts);
  }

  lemma QuotientBelow(h: nat, p: nat, q: nat)
    requires p >= 1 && h < p * q
    ensures h / p < q
  {
    var d := h / p;
    assert p * d <= h;
    if q <= d {
      MulMono(p, q, d);
      assert false;
    }
  }

  lemma MulMono(p: nat, a: nat, b: nat)
    requires a <= b
    ensures p * a <= p * b
  {
  }

  lemma ModBelow(x: nat, m: nat)
    requires m > 0
    ensures x % m < m && x % m <= x
  {
    if x < m {
    } else {
      assert x % m < m <= x;
    }
  }

  lemma CapacityBelow(n: nat)
    requires n <= MAX_BUCKETS
    ensures MaxCapacity(n) <= n
  {
  }

  // No bucket count scales to 2^32 entries.
  lemma NeverFull(shifts: nat)
    requires shifts <= 64
    ensures Scaled(NumBuckets(shifts)) < MAX_BUCKETS
  {}

  // One shift less doubles the buckets and makes room for one more entry.
  lemma GrowthMakesRoom(shifts: nat)
    requires 0 < shifts <= INITIAL_SHIFTS && NumBuckets(shifts) < MAX_BUCKETS
    ensures NumBuckets(shifts - 1) == 2 * NumBuckets(shifts)
    ensures MaxCapacity(NumBuckets(shifts)) < MaxCapacity(NumBuckets(shifts - 1))
  {
    Pow2Of64();
    Pow2Grows(2, 64 - shifts);
    BelowMaxIsHalf(shifts);
  }

  lemma BelowMaxIsHalf(shifts: nat)
    requires 0 < shifts <= INITIAL_SHIFTS && NumBuckets(shifts) < MAX_BUCKETS
    ensures 2 * Pow2(64 - shifts) <= MAX_BUCKETS
  {
    Pow2Of64();
    if shifts <= 32 {
      Pow2Grows(32, 64 - shifts);
    } else {
      Pow2Grows(64 - shifts + 1, 32);
    }
  }

  // ---------------------------------------------------------------- entries as a map

  ghost predicate Distinct<K(!new), V>(vs: seq<(K, V)>) {
    forall i, j :: 0 <= i < j < |vs| ==> vs[i].0 != vs[j].0
  }

  ghost predicate HasKey<K(!new), V>(vs: seq<(K, V)>, k: K) {
    exists i :: 0 <= i < |vs| && vs[i].0 == k
  }

  ghost function Dict<K(!new), V>(vs: seq<(K, V)>): (m: map<K, V>)
    requires Distinct(vs)
    ensures forall i :: 0 <= i < |vs| ==> vs[i].0 in m && m[vs[i].0] == vs[i].1
  {
    map i | 0 <= i < |vs| :: vs[i].0 := vs[i].1
  }

  lemma DictKey<K(!new), V>(vs: seq<(K, V)>, k: K) returns (i: nat)
    requires Distinct(vs) && k in Dict(vs)
    ensures i < |vs| && vs[i] == (k, Dict(vs)[k])
  {
    i :| 0 <= i < |vs| && vs[i].0 == k;
  }

  lemma DictHasKey<K(!new), V>(vs: seq<(K, V)>, k: K)
    requires Distinct(vs)
    ensures k in Dict(vs) <==> HasKey(vs, k)
  {
  }

  // A map with exactly the entries of vs.
  lemma DictIs<K(!new), V>(vs: seq<(K, V)>, m: map<K, V>)
    requires Distinct(vs)
    requires forall i :: 0 <= i < |vs| ==> vs[i].0 in m && m[vs[i].0] == vs[i].1
    requires forall k :: k in m ==> HasKey(vs, k)
    ensures Dict(vs) == m
  {
    forall k | k in m ensures k in Dict(vs) && Dict(vs)[k] == m[k] {
      var i :| 0 <= i < |vs| && vs[i].0 == k;
    }
  }

  lemma DictAppend<K(!new), V>(vs: seq<(K, V)>, k: K, v: V)
    requires Distinct(vs) && !HasKey(vs, k)
    ensures Distinct(vs + [(k, v)]) && Dict(vs + [(k, v)]) == Dict(vs)[k := v]
  {
    var ws, m := vs + [(k, v)], Dict(vs)[k := v];
    forall i | 0 <= i < |ws| ensures ws[i].0 in m && m[ws[i].0] == ws[i].1 {
      assert ws[i] == if i < |vs| then vs[i] else (k, v);
    }
    forall x | x in m ensures HasKey(ws, x) {
      if x == k {
        assert ws[|vs|].0 == x;
      } else {
        var i := DictKey(vs, x);
        assert ws[i].0 == x;
      }
    }
    DictIs(ws, m);
  }

  lemma DictAssign<K(!new), V>(vs: seq<(K, V)>, i: nat, v: V)
    requires Distinct(vs) && i < |vs|
    ensures Distinct(vs[i := (vs[i].0, v)])
    ensures Dict(vs[i := (vs[i].0, v)]) == Dict(vs)[vs[i].0 := v]
  {
    var ws, m := vs[i := (vs[i].0, v)], Dict(vs)[vs[i].0 := v];
    assert forall j :: 0 <= j < |vs| ==> ws[j].0 == vs[j].0;
    forall j | 0 <= j < |ws| ensures ws[j].0 in m && m[ws[j].0] == ws[j].1 {
      assert j != i ==> ws[j] == vs[j] && vs[j].0 != vs[i].0;
    }
    forall x | x in m ensures HasKey(ws, x) {
      if x == vs[i].0 {
        assert ws[i].0 == x;
      } else {
        var j := DictKey(vs, x);
        assert ws[j].0 == x;
      }
    }
    DictIs(ws, m);
  }

  lemma DictRemove<K(!new), V>(vs: seq<(K, V)>, i: nat)
    requires Distinct(vs) && i < |vs|
    ensures Distinct(SwapRemove(vs, i)) && Dict(SwapRemove(vs, i)) == Dict(vs) - {vs[i].0}
  {
    var ws, m := SwapRemove(vs, i), Dict(vs) - {vs[i].0};
    var last := |vs| - 1;
    forall j | 0 <= j < |ws| ensures ws[j].0 in m && m[ws[j].0] == ws[j].1 {
      var o := if j == i then last else j;
      assert ws[j] == vs[o] && o != i;
    }
    forall x | x in m ensures HasKey(ws, x) {
      var o := DictKey(vs, x);
      var j := if o == last then i else o;
      assert ws[j].0 == x;
    }
    DictIs(ws, m);
  }

  // ---------------------------------------------------------------- sizes

  // The size found for s entries has room for them.
  lemma EnoughRoom(shifts: nat, s: nat)
    requires shifts <= INITIAL_SHIFTS && s <= MAX_BUCKETS
    requires shifts == 0 || Scaled(NumBuckets(shifts)) >= s
    ensures MaxCapacity(NumBuckets(shifts)) >= s
  {
    HomeInRange(0, shifts);
    if shifts == 0 {
      Pow2Of64();
    }
  }

  // A smaller shift has at least as much room.
  lemma RoomGrows(a: nat, b: nat)
    requires a <= b <= INITIAL_SHIFTS
    ensures MaxCapacity(NumBuckets(a)) >= MaxCapacity(NumBuckets(b))
  {
    Pow2Grows(64 - b, 64 - a);
  }

  // ---------------------------------------------------------------- erasing many

  ghost function KeysOf<K, V>(vs: seq<(K, V)>): set<K> {
    set i | 0 <= i < |vs| :: vs[i].0
  }

  function Rev<T>(s: seq<T>): (r: seq<T>)
    ensures |r| == |s| && forall i :: 0 <= i < |s| ==> r[i] == s[|s| - 1 - i]
  {
    seq(|s|, i requires 0 <= i < |s| => s[|s| - 1 - i])
  }

  // The entries after a hole of k entries at `first` has been filled from the back.
  function RangeSoFar<T>(vs: seq<T>, first: nat, k: nat): (r: seq<T>)
    requires first + k <= |vs| - k
    ensures |r| == |vs| - k
  {
    vs[..first] + Rev(vs[|vs| - k..]) + vs[first + k..|vs| - k]
  }

  // The hole is filled, last entry first, from what follows the range.
  function RangeErased<T>(vs: seq<T>, first: nat, last: nat): seq<T>
    requires first <= last <= |vs|
  {
    if last - first <= |vs| - last
    then vs[..first] + Rev(vs[|vs| - (last - first)..]) + vs[last..|vs| - (last - first)]
    else vs[..first] + Rev(vs[last..])
  }

  lemma RangeStart<K, V>(vs: seq<(K, V)>, first: nat, last: nat)
    requires first <= last <= |vs|
    ensures RangeSoFar(vs, first, 0) == vs
    ensures KeysOf(vs[first..first]) == {}
  {
  }

  lemma RangeAt<T>(vs: seq<T>, first: nat, k: nat, i: nat)
    requires first + k <= |vs| - k && i < |vs| - k
    ensures RangeSoFar(vs, first, k)[i] == if first <= i < first + k then vs[|vs| - 1 - (i - first)] else vs[i]
  {
  }

  lemma RangeStepSeq<T>(vs: seq<T>, first: nat, k: nat)
    requires first + k < |vs| - k - 1
    ensures RangeSoFar(vs, first, k)[first + k] == vs[first + k]
    ensures SwapRemove(RangeSoFar(vs, first, k), first + k) == RangeSoFar(vs, first, k + 1)
  {
    var r, r1 := RangeSoFar(vs, first, k), RangeSoFar(vs, first, k + 1);
    var s := SwapRemove(r, first + k);
    RangeAt(vs, first, k, first + k);
    forall i | 0 <= i < |s| ensures s[i] == r1[i] {
      RangeAt(vs, first, k + 1, i);
      RangeAt(vs, first, k, if i == first + k then |r| - 1 else i);
    }
  }

  // One step of the filling loop: the entry that goes is the next of the range.
  lemma RangeStep<K, V>(vs: seq<(K, V)>, first: nat, last: nat, k: nat)
    requires first <= last <= |vs| && k < last - first && k < |vs| - last
    ensures RangeSoFar(vs, first, k)[first + k] == vs[first + k]
    ensures SwapRemove(RangeSoFar(vs, first, k), first + k) == RangeSoFar(vs, first, k + 1)
    ensures KeysOf(vs[first..first + k + 1]) == KeysOf(vs[first..first + k]) + {vs[first + k].0}
  {
    RangeStepSeq(vs, first, k);
    KeysGrow(vs, first, first + k);
  }

  lemma KeysGrow<K, V>(vs: seq<(K, V)>, a: nat, b: nat)
    requires a <= b < |vs|
    ensures KeysOf(vs[a..b + 1]) == KeysOf(vs[a..b]) + {vs[b].0}
  {
    var s, t := vs[a..b + 1], vs[a..b];
    assert s[b - a] == vs[b];
    forall k ensures k in KeysOf(s) <==> k in KeysOf(t) + {vs[b].0} {
      if k in KeysOf(s) {
        var i :| 0 <= i < |s| && s[i].0 == k;
        assert i < |t| ==> t[i] == s[i];
      }
      if k in KeysOf(t) {
        var i :| 0 <= i < |t| && t[i].0 == k;
        assert s[i] == t[i];
      }
    }
  }

  lemma KeysShrink<K, V>(vs: seq<(K, V)>, a: nat, b: nat)
    requires a < b <= |vs|
    ensures KeysOf(vs[a..b]) == {vs[a].0} + KeysOf(vs[a + 1..b])
  {
    var s, t := vs[a..b], vs[a + 1..b];
    assert s[0] == vs[a];
    forall k ensures k in KeysOf(s) <==> k in {vs[a].0} + KeysOf(t) {
      if k in KeysOf(s) {
        var i :| 0 <= i < |s| && s[i].0 == k;
        assert i > 0 ==> t[i - 1] == s[i];
      }
      if k in KeysOf(t) {
        var i :| 0 <= i < |t| && t[i].0 == k;
        assert s[i + 1] == t[i];
      }
    }
  }

  // How far the hole has moved once the entries behind the range are used up.
  function Mid(n: nat, first: nat, last: nat): nat
    requires first <= last <= n
  {
    first + if last - first <= n - last then last - first else n - last
  }

  lemma RangeTail<K, V>(vs: seq<(K, V)>, first: nat, last: nat)
    requires first <= last <= |vs|
    ensures var mid := Mid(|vs|, first, last);
            && var r := RangeSoFar(vs, first, mid - first);
            && r[..|vs| - (mid - first)] == r
            && KeysOf(vs[first..mid]) + KeysOf(vs[mid..last]) == KeysOf(vs[first..last])
            && KeysOf(vs[last..last]) == {}
  {
    KeysSplit(vs, first, Mid(|vs|, first, last), last);
  }

  lemma RangeDone<K, V>(vs: seq<(K, V)>, first: nat, last: nat)
    requires first <= last <= |vs|
    ensures var mid := Mid(|vs|, first, last);
            && var r := RangeSoFar(vs, first, mid - first);
            && |vs| - (mid - first) - (last - mid) >= 0
            && r[..|vs| - (mid - first) - (last - mid)] == RangeErased(vs, first, last)
  {
    var k := Mid(|vs|, first, last) - first;
    if last - first > |vs| - last {
      var front := vs[..first] + Rev(vs[|vs| - k..]);
      assert RangeSoFar(vs, first, k) == front + vs[first + k..|vs| - k];
      assert (front + vs[first + k..|vs| - k])[..|front|] == front;
    }
  }

  lemma KeysSplit<K, V>(vs: seq<(K, V)>, a: nat, b: nat, c: nat)
    requires a <= b <= c <= |vs|
    ensures KeysOf(vs[a..b]) + KeysOf(vs[b..c]) == KeysOf(vs[a..c])
    decreases c - b
  {
    if b < c {
      KeysGrow(vs, a, b);
      KeysShrink(vs, b, c);
      KeysSplit(vs, a, b + 1, c);
    }
  }

  // One step of the second loop: only the last entry is left to go.
  lemma RangeTailStep<K, V>(vs: seq<(K, V)>, first: nat, last: nat, idx: nat)
    requires first <= last <= |vs| && Mid(|vs|, first, last) <= idx < last
    ensures var mid := Mid(|vs|, first, last);
            && var r := RangeSoFar(vs, first, mid - first);
            && |vs| - (mid - first) - (last - idx) == idx
            && idx < |r|
            && SwapRemove(r[..idx + 1], idx) == r[..idx]
            && r[..idx + 1][idx] == vs[idx]
            && KeysOf(vs[idx..last]) == {vs[idx].0} + KeysOf(vs[idx + 1..last])
  {
    KeysShrink(vs, idx, last);
  }

  // ---------------------------------------------------------------- filtering

  lemma SwapRemoveIn<K, V>(vs: seq<(K, V)>, i: nat)
    requires i < |vs|
    ensures forall e :: e in SwapRemove(vs, i) ==> e in vs
    ensures forall e :: e in vs && e != vs[i] ==> e in SwapRemove(vs, i)
    ensures |SwapRemove(vs, i)| == |vs| - 1
    ensures forall k :: i <= k < |vs| - 1 ==> SwapRemove(vs, i)[k] == if k == i then vs[|vs| - 1] else vs[k]
  {
    var ws := SwapRemove(vs, i);
    forall e | e in vs && e != vs[i] ensures e in ws {
      var k :| 0 <= k < |vs| && vs[k] == e;
      assert ws[if k == |vs| - 1 then i else k] == e;
    }
  }

  lemma Filtered<K(!new), V>(vs: seq<(K, V)>, ws: seq<(K, V)>, pred: ((K, V)) -> bool)
    requires Distinct(vs) && Distinct(ws)
    requires forall e :: e in ws <==> e in vs && !pred(e)
    ensures Dict(ws) == map k | k in Dict(vs) && !pred((k, Dict(vs)[k])) :: Dict(vs)[k]
  {
    var m := map k | k in Dict(vs) && !pred((k, Dict(vs)[k])) :: Dict(vs)[k];
    forall i | 0 <= i < |ws| ensures ws[i].0 in m && m[ws[i].0] == ws[i].1 {
      assert ws[i] in vs;
      var j :| 0 <= j < |vs| && vs[j] == ws[i];
    }
    forall k | k in m ensures HasKey(ws, k) {
      var i := DictKey(vs, k);
      assert vs[i] in ws;
      var j :| 0 <= j < |ws| && ws[j] == vs[i];
    }
    DictIs(ws, m);
  }

  // ---------------------------------------------------------------- duplicates

  // ws takes every entry from vs and has the keys of all of them.
  ghost predicate SameKeySet<K(!new), V>(vs: seq<(K, V)>, ws: seq<(K, V)>) {
    && (forall e :: e in ws ==> e in vs)
    && (forall k :: HasKey(vs, k) ==> HasKey(ws, k))
  }

  lemma AllHaveKeys<K(!new), V>(vs: seq<(K, V)>)
    ensures SameKeySet(vs, vs)
  {
  }

  lemma NothingDistinct<K(!new), V>(vs: seq<(K, V)>)
    ensures vs[..0] == [] && Distinct(vs[..0])
  {
  }

  // Dropping an entry whose key occurs earlier loses no key.
  lemma DropDuplicate<K(!new), V>(vs: seq<(K, V)>, ws: seq<(K, V)>, o: nat, i: nat)
    requires o < i < |ws| && ws[o].0 == ws[i].0 && SameKeySet(vs, ws)
    ensures var xs := SwapRemove(ws, i);
            && SameKeySet(vs, xs) && |xs| == |ws| - 1 && xs[..i] == ws[..i]
            && xs == (if i == |ws| - 1 then ws else ws[i := ws[|ws| - 1]])[..|ws| - 1]
  {
    var xs := SwapRemove(ws, i);
    SwapRemoveIn(ws, i);
    forall k | HasKey(vs, k) ensures HasKey(xs, k) {
      var j :| 0 <= j < |ws| && ws[j].0 == k;
      assert xs[if j == i then o else if j == |ws| - 1 then i else j].0 == k;
    }
  }
}
